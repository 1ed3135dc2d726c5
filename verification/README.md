# runa: a verified model

runa runs language models locally. This project models the parts of it where a fast or
incremental algorithm has to agree with a simple description, and proves that it does, for
all inputs; where the code does less than one would think, it proves exactly when it holds.

`dafny verify dfyconfig.toml` checks everything.

| files | what they are about |
|---|---|
| `Strings` `StopFilter` | finding strings, and holding back text that may begin a stop string |
| `Ngram` | the draft cache and argmax |
| `Reasoning` `ReasoningStream` `ReasoningSegments` `Splitter` | the streaming splitter of reasoning and answer, what cutting the stream can change, and which characters are reasoning |
| `Budget` | the clock that counts reasoning tokens and forces a think block closed |
| `GreedySpec` `Room` `Generation` `GreedyTheorems` `CallerView` `Capacity` | the decode loop against plain greedy decoding, and what plain greedy decoding delivers |
| `GgufReader` `GgufCursor` `GgufValues` `GgufWriter` `GrowLoops` | the GGUF header parser, values and files as bytes, and the loops that read longer prefixes until it parses |
| `Estimate` `Planner` `PlanBytes` `PlanOrder` `Eviction` | KV and compute estimates, and the placement of tensors on the GPU |
| `Pool` | the LRU of loaded engines with its idle sweep |
| `EditDistance` `Vad` `Sequences` `Frames` | word error rate, voice spans, frame selection |
| `Sse` `SseFraming` `SseText` `SseReassembly` `InlinedInput` | text, reasoning and tool calls reassembled from a stream of server-sent events |
| `TextLines` `Registry` `RegistryText` `RegistryBytes` `TaskClaims` | the task-claim table kept in markdown |

## How the model is built

Code that changes things step by step is written as methods and classes with the source's
fields and loops: `Generation`, `LlamaContext`, `NgramCache`, `ReasoningParser`, `BudgetClock`,
`Cursor`, `Server`, `ModelPool`, `SseTools`, `TaskRegistry`, and the loops over arrays. Each method is proved equal to a
function of its input or of the old state. The main results are lemmas about those functions.

**Decode loop.** The language model is any function from a token prefix to logits, a logit being a number or minus
infinity. Decoding a batch appends its tokens to the KV cache and fails exactly when the cells
exceed the context. `Future` is plain greedy decoding: one token at a time, no batches, no
cache, no drafts. The theorem is `Generate`: for every model, prompt, stop set, batch size and
draft length, with or without drafts, from a fresh or a restored context, the events delivered
are those of `Future`. The invariant behind it is `Generation.KvValid`, with one equation that
every method keeps: what was delivered, what is queued and what plain decoding would still
deliver is the same whole. `WholeGeneration` then says what that whole is, and `CallerSees` what
of it reaches the caller: the text events join to the text of the split, the reasoning events to
its reasoning if that is shown, and then come the usage and the reason.

The promise that "greedy output is unchanged" by drafting has one limit. A batch of drafts
needs more cells than the tokens of it that stand, and near the end of the context the whole
batch is refused. `Cells` is the most that any batch of a run asks for, computed from the answer
alone, and `Generate` succeeds if and only if the prompt and `Cells` fit. Without drafts that is
one cell for each token; with drafts it is never less and never more than `maxTokens`
(`RoomNeeded`). `DraftsCanOverrun` is a request that is answered without drafts and refused with them.

**Splitter.** The message marker is removed only when it is already complete in the buffer.
So chunk boundaries can matter, and `CutsMatterExactly` says when: they do not if and only if
no consumed delimiter is directly followed by the marker, which is the guard of the branch that
removes it. One of the two directions compares the whole stream with the stream cut into single
characters, which never strips. `SplitByTags` says which characters are reasoning, from the stream
and the tag table alone: a stream is a text with no opening tag and then parts behind opening and
closing tags in turn. The parts behind opening tags are the reasoning, the rest is the text, and the
cuts do not matter if and only if no part begins with the marker. `EveryStream` says that every
stream has this form.

**GGUF.** `ParseHeader` moves a cursor over bytes; `Parse` is the same as a function. A result
that does not ask for more bytes stays the same whatever is appended (`ParseStable`), and this
alone makes the grow loops right. `RoundTrip` is about files written by the format, with values of
all thirteen types and of arrays of the twelve that can be elements; the reader refuses arrays of
arrays. The documentation in `gguf.rs` speaks of metadata
alignment that differs between versions, of 32-bit tensor dimensions and of 64-byte padding; the code has no metadata
alignment, reads 64-bit dimensions and pads to 32, and so does the model.

**Planner.** `PlanAddsUp` and `TurnExactly` state the plan in bytes of VRAM and RAM.
Monotonicity holds although the greedy fill skips what does not fit: a tensor
taken early with less room to spare is larger than all the room there was without it
(`FilledMonotone`). The comparison of the total with VRAM never decides
(`GpuSideAlwaysFits`). The documentation in `planner.rs` says that experts go to the CPU first and
dense weights last. That is the order of the fill, but a tensor that does not fit is
skipped, so a group can be on the GPU while one of higher priority is not.
`PriorityBrokenExactly` says when, for any two groups, from the sizes of the tensors and the
budget alone, and `ExpertBesideEvictedDenseExactly` spells it out for experts and dense tensors.
The documentation lists normalization layers as a group of their own; the code has three groups.
The tensors come from a hash map and the sort is stable, so ties keep the map's order. No number
of the plan depends on it but the layer counts (`NumbersOrderFree`, `LayersFollowOrder`), and
without ties nothing does (`PlanOrderFree`).

**Pool.** A swept engine whose thread had died stays in the LRU list. `LimitKeptExactly` says over
which runs the pool nevertheless keeps its limit; `DeadEngineBreaksLimit` is a run where it does not.

**Server-sent events.** JSON reading and writing are two arbitrary functions. `StreamIsTold` is
about text, reasoning, usage, refusals and ends; the other results are about the tool calls. An `input` sent
with the start of a block is put in front of the later fragments. `Sends` therefore takes a tool
input from the fragments alone, when the start brings none, or from the start alone, when no
fragment follows. `InlinedInputExactly` is about the rest: with fragments that spell the input,
the call survives if and only if the start brings no input text. `EmptyObjectSpoils` is the
shape in which this repository's own server sends its calls, which this parser reads as empty.

**Claim table.** Rows are text in a markdown file. A claim is lost if its agent cannot be
written in a cell or if a later row has the same id: `ClaimSticksExactly`. Lines that are no
rows keep their content, but not their ending: a carriage return before a line feed is
dropped, on every line of the file (`OtherLinesStay`). And a request that succeeds writes the
rows of all other tasks too: their values stay, their lines take the written form (`OtherTasksLines`).

## Model

| member | source | states |
|---|---|---|
| Generation.Generate | crates/runa-engine/src/generate.rs:288-380 | any generation, with or without drafts, whatever the batch size, draft length or cache hit, delivers the events of plain greedy decoding if it gets to the end, and it gets there iff the prompt and each of its batches fit into the context; what these events are is `CallerSees` |
| Generation.Generation.constructor | crates/runa-engine/src/generate.rs:301-380 | a fresh generation has everything still to deliver, and on a cache hit the closed-form index points at the logits of the prompt |
| Generation.Generation.PrefillStep | crates/runa-engine/src/generate.rs:533-567 | every chunk continues the cached positions; after the last one the KV is the prompt and the kept logits are those after it |
| Generation.LastPrefillIdxIsLoop | crates/runa-engine/src/generate.rs:901-909 | the closed form used on a cache hit is the index the chunked prefill loop leaves |
| Generation.Generation.DecodeStep | crates/runa-engine/src/generate.rs:569-621 | a step changes neither what remains to be delivered nor whether all batches to come fit, one that goes on commits at least one token, and one fails only if they do not fit |
| Generation.Generation.DraftAfter | crates/runa-engine/src/generate.rs:624-634 | the batch is the sampled token and the cache's drafts for the whole history, capped by room, draft length and batch size |
| Generation.Generation.DecodeBatch | crates/runa-engine/src/generate.rs:635-665 | exactly the drafts equal to the model's own choice stay; afterwards the KV is what it was plus the kept tokens, and the kept logits are those after it; it fails iff the batch exceeds the context |
| Generation.Generation.CountAccepted | crates/runa-engine/src/generate.rs:646-656 | the accepted drafts are the longest run that agrees with the argmax at each position |
| Generation.Generation.CommitTokens | crates/runa-engine/src/generate.rs:624-710 | committing a batch keeps the KV equal to prompt plus committed tokens, what remains to be delivered, and whether all batches to come fit |
| Generation.Generation.AbsorbAll | crates/runa-engine/src/generate.rs:671-708 | the loop over the kept tokens commits them in order up to the one that ends the generation |
| Generation.KeptStands | crates/runa-engine/src/generate.rs:646-663 | what the loop accepts is the longest run of the batch that greedy decoding would choose |
| Generation.Generation.Absorb | crates/runa-engine/src/generate.rs:671-708 | committing one token, or stopping at it for end of text, the token limit or a stop string, delivers what plain decoding does |
| Generation.Generation.AbsorbText | crates/runa-engine/src/generate.rs:680-707 | a token that goes on is counted, learned and decoded, and its text released or cut as plain decoding does |
| Generation.Generation.TakeToken | crates/runa-engine/src/generate.rs:680-695 | decoding, counting and learning a token keep the cache equal to the one of the whole history |
| Generation.Generation.ReleaseText | crates/runa-engine/src/generate.rs:697-701 | released text goes through the splitter before the budget clock observes it |
| Generation.Generation.QueueTerminal | crates/runa-engine/src/generate.rs:712-740 | events queued before come first, then the flushed text, the usage and the reason |
| Generation.Generation.EnqueueParsed | crates/runa-engine/src/generate.rs:742-753 | queues the non-empty pieces the splitter gives, reasoning only if it is shown |
| Generation.Generation.EnqueuePiece | crates/runa-engine/src/generate.rs:755-766 | queues the events of a piece; that these are the text, and the reasoning if shown, is `CallerSees` |
| Generation.Generation.ObserveBudget | crates/runa-engine/src/generate.rs:768-783 | adds to the reasoning total what the clock's count grew by |
| Generation.Generation.Next | crates/runa-engine/src/generate.rs:922-947 | returns the first of the remaining events and leaves the rest; it ends iff none remain, and it terminates |
| Generation.Generation.Collect | crates/runa-engine/src/generate.rs:486-509 | drains the generation: all remaining events in order |
| Generation.AnswerNext | crates/runa-engine/src/generate.rs:569-621 | the token sampled next is the answer's next |
| Room.DraftBatch | crates/runa-engine/src/generate.rs:625-634 | a batch starts with its token, never reaches beyond `maxTokens`, and holds at most `draftN` drafts and `nBatch` tokens |
| Ngram.DraftsFollow | crates/runa-engine/src/ngram.rs:64-79 | each draft is the token that followed the last occurrence of the three tokens before it, and drafting ends only at the cap or where these never stood before a token |
| Room.CellsStep | crates/runa-engine/src/generate.rs:635-665 | all batches to come fit iff the next one does and those after the tokens of it that stand do |
| Room.CellsBounds | crates/runa-engine/src/generate.rs:624-665 | with drafts never fewer cells are needed than the answer has tokens, and never more than `maxTokens` |
| Room.CellsPlain | crates/runa-engine/src/generate.rs:624-665 | without drafts exactly one cell for each token of the answer is needed |
| Capacity.RoomNeeded | crates/runa-engine/src/generate.rs:624-665 | these bounds for a whole generation |
| Capacity.ReportedIsTokens | crates/runa-engine/src/generate.rs:712-740 | the answer is the tokens of the finished generation, and the usage event counts them |
| Capacity.DraftsCanOverrun | crates/runa-engine/src/generate.rs:624-644 | a model whose plain decoding fits into a context that the batches of its draft run exceed |
| Capacity.AnsweredOnlyWithoutDrafts | crates/runa-engine/src/generate.rs:624-644 | the same request is answered without drafts and refused with them |
| GreedyTheorems.FinishTokens | crates/runa-engine/src/generate.rs:569-621 | every token delivered is the greedy choice after its prefix, and generation ends for the stated reason |
| GreedyTheorems.FinishText | crates/runa-engine/src/generate.rs:695-717 | the text released is the decoded text, up to the earliest stop string if there is one, which is complete only with the last token |
| GreedyTheorems.FinishEvents | crates/runa-engine/src/generate.rs:712-766 | the events are the split of that text, then usage and reason |
| GreedyTheorems.FinishCounts | crates/runa-engine/src/generate.rs:768-783 | the reported reasoning tokens are the clock's tally over the whole run |
| GreedyTheorems.WholeGeneration | crates/runa-engine/src/generate.rs:569-717 | tokens, text, events and usage of a whole generation, for every model and stop set |
| GreedyTheorems.SplitOfReleasedText | crates/runa-engine/src/generate.rs:742-753 | with no marker behind a delimiter the caller gets the reasoning and the answer of the released text parsed whole |
| CallerView.CallerSees | crates/runa-engine/src/generate.rs:712-766 | the text events of a generation join to the text of the split, the reasoning events to its reasoning if it is shown and there are none otherwise, both in the order of the output; no string is empty, and only the usage and the reason follow |
| CallerView.CallerSeesSegments | crates/runa-engine/src/generate.rs:742-766 | so the caller gets as answer what the released text has outside its think blocks, and as reasoning what it has inside |
| StopFilter.SplitOf | crates/runa-engine/src/generate.rs:850-899 | stops iff a non-empty stop occurs, at its earliest occurrence with the first listed winning ties; otherwise withholds exactly the longest tail that begins a stop |
| StopFilter.SplitEmit | crates/runa-engine/src/generate.rs:850-899 | the two loops compute that split |
| StopFilter.PieceStep | crates/runa-engine/src/generate.rs:695-708 | over a stream of pieces the filter lets through exactly the text before the earliest stop of the whole stream, and nothing is lost while there is none |
| GreedyTheorems.StopsAtFirstToken | crates/runa-engine/src/generate.rs:695-708 | generation stops for a stop string at the first token that completes one, and for another reason only while the text has none |
| Ngram.ArgmaxI32 | crates/runa-engine/src/ngram.rs:83-93 | the loop finds the first largest logit |
| Ngram.ArgmaxUnique | crates/runa-engine/src/ngram.rs:83-93 | there is only one first largest logit |
| Ngram.NgramCache.Ingest | crates/runa-engine/src/ngram.rs:44-51 | indexing all windows of a history gives the cache that learning it token by token gives |
| Ngram.NgramCache.Learn | crates/runa-engine/src/ngram.rs:54-61 | keeps the cache equal to that of the longer history |
| Ngram.NgramCache.Draft | crates/runa-engine/src/ngram.rs:64-79 | follows the trigrams of the history and its own drafts, at most `max` times |
| Ngram.SeenIsLastContinuation | crates/runa-engine/src/ngram.rs:44-61 | the cache maps a trigram to the token after its last occurrence, and knows no others |
| Splitter.FindOpenTag | crates/runa-core/src/reason.rs:189-202 | the loop finds the earliest opening tag |
| Reasoning.FindOpenIsFirst | crates/runa-core/src/reason.rs:189-202 | no tag of the table begins earlier than the one found; none is found iff none occurs |
| Splitter.EmitSafe | crates/runa-core/src/reason.rs:218-236 | cuts the buffer where the longest tail that begins a needle starts |
| Reasoning.KeepLenIsKeep | crates/runa-core/src/reason.rs:218-236 | the kept tail is the longest beginning of a needle, and with no needle in the buffer it is a strict one |
| Splitter.ReasoningParser.Push | crates/runa-core/src/reason.rs:113-170 | the loop drains the buffer with the chunk added; which side each character comes out on is `SplitByTags` |
| Splitter.ReasoningParser.Round | crates/runa-core/src/reason.rs:117-168 | one round consumes the next delimiter and changes sides, or emits what is safe and stops |
| Splitter.ReasoningParser.Flush | crates/runa-core/src/reason.rs:172-182 | gives the held text as a piece of its side and empties the buffer |
| Reasoning.FamiliesAreGood | crates/runa-core/src/reason.rs:36-51 | in every family no opening tag begins another |
| Reasoning.TagsDoNotOverlap | crates/runa-core/src/reason.rs:36-51 | occurrences of two tags never overlap |
| Reasoning.ScanAppend | crates/runa-core/src/reason.rs:113-170 | the next delimiter stays the next whatever is appended |
| Reasoning.DrainHolds | crates/runa-core/src/reason.rs:113-170 | after draining nothing is left to find and only a strict beginning of a live delimiter is held |
| Reasoning.DrainAppend | crates/runa-core/src/reason.rs:113-170 | apart from marker removal, draining in two parts is draining at once: same state and same characters on the same sides |
| ReasoningStream.RunIsWhole | crates/runa-core/src/reason.rs:239-256 | however a marker-free stream is cut, state and output are those of the whole |
| ReasoningStream.PushPush | crates/runa-core/src/reason.rs:113-170 | pushing `a` then `b` leaves the state and the output of pushing `a + b` |
| ReasoningStream.RunHolds | crates/runa-core/src/reason.rs:108-111 | after any chunks what is held is a strict prefix of a delimiter that may come next |
| ReasoningStream.SinglesNeverStrip | crates/runa-core/src/reason.rs:140-156 | cut into single characters, a stream never loses a marker |
| ReasoningStream.StripLosesCharacters | crates/runa-core/src/reason.rs:211-215 | removing a marker once makes the output shorter for good |
| ReasoningStream.CutsMatterExactly | crates/runa-core/src/reason.rs:113-256 | all ways of cutting a stream give the same reasoning and the same answer iff no consumed delimiter is directly followed by the marker |
| ReasoningStream.MarkerExample | crates/runa-core/src/reason.rs:36-51 | a Harmony stream that the cuts change |
| ReasoningSegments.SplitByTags | crates/runa-core/src/reason.rs:113-170 | however a stream is cut, what stands behind opening tags is its reasoning and the rest its text, if no message marker stands directly behind a tag; and exactly then the cuts do not matter |
| ReasoningSegments.PushedWhole | crates/runa-core/src/reason.rs:113-215 | pushed whole, a stream gives the same, without the markers behind tags |
| ReasoningSegments.EveryStream | crates/runa-core/src/reason.rs:189-202 | every stream is a text without an opening tag, and parts behind tags of one pair that open and close in turn |
| Budget.BudgetClock.Observe | crates/runa-core/src/think.rs:291-321 | the clock's step |
| Budget.BudgetClock.NextKind | crates/runa-core/src/think.rs:323-334 | sample, bias or force, from the state and the observation |
| Budget.TallyIsInsidePairs | crates/runa-core/src/think.rs:291-321 | for traces shorter than 2^32 - 1 the total is the number of adjacent in-reasoning pairs, across all re-armed blocks |
| Budget.OvershootIsHeldSteps | crates/runa-core/src/think.rs:291-321 | for a budget of at least one, a block's count passes the budget by at most the number of held steps, and by exactly that while forcing |
| Budget.ZeroBudgetOvershoots | crates/runa-core/src/think.rs:291-321 | with a zero budget that bound fails |
| Budget.ForceExactly | crates/runa-core/src/think.rs:323-334 | a close is forced iff the open block has used its budget, was not closed before, and no partial tag is held |
| Budget.KindExactly | crates/runa-core/src/think.rs:291-334 | after any trace of observations, from the number of tokens seen inside the open block alone: when a close is forced, when it is favoured, and that it never is outside a block |
| GgufCursor.Cursor.TakeBytes | crates/runa-fit/src/gguf.rs:403-411 | moves over `n` bytes or reports that they are missing, where the read says |
| GgufCursor.Cursor.String | crates/runa-fit/src/gguf.rs:427-432 | reads a length and then so many bytes |
| GgufCursor.Cursor.Collect | crates/runa-fit/src/gguf.rs:459-507 | reads elements in order up to the first failure |
| GgufCursor.Cursor.ValueOf | crates/runa-fit/src/gguf.rs:435-452 | reads a value of each type, arrays included, as `ValueReads` says of the bytes |
| GgufCursor.ParseHeader | crates/runa-fit/src/gguf.rs:280-344 | the cursor-moving parser computes `Parse`, errors included; on written files that is `RoundTrip` |
| GgufReader.ManyStable | crates/runa-fit/src/gguf.rs:459-507 | a loop over stable reads is stable |
| GgufReader.ParseStable | crates/runa-fit/src/gguf.rs:280-344 | a header that parsed, and an error that is not about missing bytes, are unchanged by appending any bytes; and bytes that are too short lack the end of the tables |
| GgufReader.PrefixOfParsed | crates/runa-fit/src/gguf.rs:280-344 | a prefix of a buffer parses to the same result or asks for more bytes |
| GgufReader.HeaderNeedsExactly | crates/runa-fit/src/gguf.rs:280-344 | a prefix of a file with a header parses iff it reaches the end of the tables |
| GgufValues.ValueReads | crates/runa-fit/src/gguf.rs:435-452 | a value of any of the thirteen types reads back from its bytes at any place, and the read ends where they end |
| GgufValues.ArrayReads | crates/runa-fit/src/gguf.rs:459-507 | an array reads back from its element type in four bytes, its length in eight and its elements in order |
| GgufValues.NestedArrayRefused | crates/runa-fit/src/gguf.rs:459-507 | an array of arrays is refused |
| GgufValues.IntReads | crates/runa-fit/src/gguf.rs:435-452 | a signed number reads back from its two's complement |
| GgufWriter.MakeGguf | scripts/generate-p07-fixtures.py:36-61 | the loops write magic, version, counts, entries, tensors and zero padding |
| GgufWriter.Pad | scripts/generate-p07-fixtures.py:55-57 | the padding loop stops at the next multiple of 32 |
| GgufWriter.KeyValueReads | scripts/generate-p07-fixtures.py:26-46 | a written entry reads back at any place in a file |
| GgufWriter.TensorReads | scripts/generate-p07-fixtures.py:47-54 | a written tensor record reads back at any place in a file |
| GgufWriter.RoundTrip | scripts/generate-p07-fixtures.py:36-61 | parsing a written file of version 2 or 3, with values of all types, gives exactly its metadata and tensors in order, and the data starts where the padded file ends; another version is refused |
| GgufWriter.UnknownTagRefused | crates/runa-fit/src/gguf.rs:308-316 | the first entry whose tag is no type refuses the file with that tag, whatever stands behind it |
| GrowLoops.ReadLocalPrefix | crates/runa-fit/src/remote.rs:589-627 | returns a prefix that parses to the header of the whole file, or the file's own error, or gives up at the limit; it terminates by doubling |
| GrowLoops.FetchUrl | crates/runa-fit/src/remote.rs:337-395 | whatever the server answers, the bytes are a prefix with the file's own header or error, after at most six requests; against a server that serves the ranges it gives the same as the local read |
| GrowLoops.Server.GetRange | crates/runa-fit/src/remote.rs:399-450 | a partial reply begins what the file has from the asked place on, is no longer than asked, and a told length is the file's; a whole reply is the file; behind the end there is an error |
| GrowLoops.RightIsSound | crates/runa-fit/src/remote.rs:589-627 | what the local read owes implies what any answer over the network owes |
| GrowLoops.NeverCorrupt | crates/runa-fit/src/remote.rs:322-627 | neither loop calls a file corrupt that parses as a whole, and bytes from either have the header of the whole |
| GrowLoops.PrefixDecides | crates/runa-fit/src/remote.rs:535-543 | once a prefix does not ask for more, every longer prefix and the file give its result |
| Estimate.EstimateKv | crates/runa-fit/src/kv.rs:64-100 | the layer loop adds up the closed form, sliding windows included |
| Estimate.KvBytesMonotone | crates/runa-fit/src/kv.rs:48-100 | a shorter context never needs more KV bytes |
| Estimate.ComputeBytesMonotone | crates/runa-fit/src/compute.rs:53-88 | a smaller micro-batch never needs a larger compute buffer |
| Estimate.KvWhole | crates/runa-fit/src/kv.rs:48-100 | the cache in whole numbers: layers times tokens of the window times key and value elements, in blocks of 32, or the compressed form |
| Estimate.KvExamples | crates/runa-fit/src/kv.rs:217-252 | the three sizes that the repository's tests expect |
| Estimate.ComputeWhole | crates/runa-fit/src/compute.rs:53-88 | the compute buffer in whole numbers, 15 percent included |
| Estimate.RecommendUbatch | crates/runa-fit/src/compute.rs:94-108 | the binary search finds the largest micro-batch whose buffer fits, or 1 |
| Planner.SortedIsOrdered | crates/runa-fit/src/planner.rs:141-157 | sorting keeps the tensors and puts dense before expert groups, larger first |
| Planner.FillGpu | crates/runa-fit/src/planner.rs:159-166 | the loop over the sorted vector marks what the fill puts on the GPU |
| Planner.FillIsGreedy | crates/runa-fit/src/planner.rs:159-168 | a tensor is on the GPU iff it fitted at its turn; GPU plus CPU bytes are all bytes |
| Planner.AllOnExactly | crates/runa-fit/src/planner.rs:159-209 | everything is on the GPU iff everything fits together |
| Planner.CountCpu | crates/runa-fit/src/planner.rs:168-209 | the loop adds up the CPU side and notes whether every tensor is on the GPU |
| Planner.CountLayers | crates/runa-fit/src/planner.rs:192-207 | all layers count on the GPU iff there is a first layer and all its tensors are there, otherwise all on the CPU |
| Planner.PlanPlacement | crates/runa-fit/src/planner.rs:121-226 | the plan's placements are the greedy fill of the sorted tensors, and its numbers are those that `PlanAddsUp` and `TurnExactly` are about |
| Planner.OrderIrrelevant | crates/runa-fit/src/planner.rs:141-166 | any two orders of the same tensors give the same GPU bytes |
| Planner.OrderedUnique | crates/runa-fit/src/planner.rs:153-157 | without two tensors of the same group and size there is only one sorted order |
| PlanOrder.NumbersOrderFree | crates/runa-fit/src/planner.rs:141-226 | in whatever order the map gives the tensors, all byte numbers of the plan, whether everything is on the GPU, and whether it fits are the same |
| PlanOrder.PlanOrderFree | crates/runa-fit/src/planner.rs:141-226 | without two tensors of the same group and size the whole plan is the same, placements and layer counts included |
| PlanOrder.LayersFollowOrder | crates/runa-fit/src/planner.rs:153-207 | with such a tie the layer counts follow the order: a concrete pair |
| Planner.FilledMonotone | crates/runa-fit/src/planner.rs:159-166 | more room never means fewer bytes on the GPU, although tensors are skipped |
| Planner.GpuBytesMonotone | crates/runa-fit/src/planner.rs:121-166 | GPU weight bytes never drop when VRAM grows or margin, context, micro-batch or reserved bytes shrink |
| Planner.FitsMonotone | crates/runa-fit/src/planner.rs:121-190 | a model that fits still fits with more VRAM or RAM, a shorter context or less reserved |
| Planner.GpuSideAlwaysFits | crates/runa-fit/src/planner.rs:159-190 | when any weight byte is on the GPU the GPU total is at most VRAM minus margin |
| PlanBytes.PlanAddsUp | crates/runa-fit/src/planner.rs:121-226 | the total is the GPU weights plus compute, KV, projector, adapter and encoder bytes; with weights on the GPU it leaves the margin of VRAM free; all are there iff all fit together so; the model fits iff RAM takes the CPU weights, and these five too when no weight is on the GPU |
| PlanBytes.TurnExactly | crates/runa-fit/src/planner.rs:133-166 | a tensor with bytes is on the GPU iff it fitted at its turn into VRAM beside the weights placed before, those five and the margin |
| Eviction.OrderedGroups | crates/runa-fit/src/planner.rs:112-157 | sorted, the dense tensors come first, then the tables, then the experts |
| Eviction.SomeOnExactly | crates/runa-fit/src/planner.rs:159-166 | some tensor of a group is on the GPU iff one of them fits what the groups of higher priority leave |
| Eviction.SomeOffExactly | crates/runa-fit/src/planner.rs:159-166 | some tensor of a group is on the CPU iff together they exceed what those groups leave |
| Eviction.PriorityBrokenExactly | crates/runa-fit/src/planner.rs:9-19 | in the plan a tensor of one group is on the GPU while one of another is not, for any two groups, exactly when |
| Eviction.ExpertBesideEvictedDenseExactly | crates/runa-fit/src/planner.rs:9-19 | an expert is on the GPU while a dense tensor is not iff the dense tensors together exceed the budget and an expert fits what the other groups leave of it |
| Eviction.ExpertBesideEvictedDense | crates/runa-fit/src/planner.rs:112-166 | the placements of a dense tensor that is skipped and an expert behind it that is not |
| Pool.ModelPool.TouchLru | crates/runa/src/pool.rs:260-264 | moves an id to the end and stamps it |
| Pool.ModelPool.EvictIfNeeded | crates/runa/src/pool.rs:266-283 | the loop evicts from the front while over the limit |
| Pool.ModelPool.EnsureEngine | crates/runa/src/pool.rs:394-430 | serves a loaded engine, or loads and evicts, or fails and changes nothing |
| Pool.ModelPool.DueForIdle | crates/runa/src/pool.rs:287-300 | exactly the loaded engines unused for the timeout |
| Pool.ModelPool.IdleSweep | crates/runa/src/pool.rs:307-325 | sweeps the due engines, restamps live ones and drops dead ones from the map but not from the list |
| Pool.EnsureSound | crates/runa/src/pool.rs:394-430 | requests keep the list free of repeats and covering the loaded engines, and never evict the id just served |
| Pool.SweepSound | crates/runa/src/pool.rs:307-325 | so do sweeps |
| Pool.RunIsSound | crates/runa/src/pool.rs:260-430 | so does every run of requests and sweeps, with live and dead engines |
| Pool.SweepQuiets | crates/runa/src/pool.rs:287-325 | what was just swept is not due again before the timeout, and only dead engines go |
| Pool.SweptExactly | crates/runa/src/pool.rs:287-325 | a sweep forgets exactly the dead engines unused for the timeout, stamps the live ones unused so long, and leaves the others and the list |
| Pool.StampedExactly | crates/runa/src/pool.rs:260-283 | a request that is served stamps its own engine and no other |
| Pool.EvictExactly | crates/runa/src/pool.rs:266-283 | eviction brings the pool within the limit iff the ids at the front of the list are all loaded |
| Pool.LimitKeptExactly | crates/runa/src/pool.rs:260-430 | over any run, dead engines included, the pool stays within its limit iff every load into a full pool finds the id at the front of the list loaded |
| Pool.DeadEngineBreaksLimit | crates/runa/src/pool.rs:315-320 | a run with a dead engine after which two engines are loaded where one is allowed |
| Pool.SimpleStep | crates/runa/src/pool.rs:394-430 | a request keeps the list equal to the last `max` distinct ids served |
| Pool.RunIsSimple | crates/runa/src/pool.rs:260-430 | after any run of requests, failed ones included, and sweeps that find no dead engine, the list has no repeats, is exactly the loaded engines and the last `max` distinct ids served |
| Pool.RecentByLastUse | crates/runa/src/pool.rs:260-264 | that list is in order of last use |
| Pool.LoadedExactly | crates/runa/src/pool.rs:260-430 | after such a run an engine is loaded iff fewer than `max` other ids were served since its last use |
| EditDistance.Levenshtein | crates/runa-media/src/asr.rs:230-244 | the two-row loop with swap computes the recurrence |
| EditDistance.OneEdit | crates/runa-media/src/asr.rs:230-244 | one insertion, deletion or substitution changes the distance by at most one |
| EditDistance.NoFewerEdits | crates/runa-media/src/asr.rs:230-244 | no edit script is shorter than the distance |
| EditDistance.ShortestEdits | crates/runa-media/src/asr.rs:230-244 | some edit script is as short as the distance |
| EditDistance.LevIsLeast | crates/runa-media/src/asr.rs:230-244 | the distance is the least number of edits that turn one token list into the other |
| EditDistance.WordErrorRate | crates/runa-media/src/asr.rs:208-216 | the rate is zero iff the token lists are equal; the empty reference has its own answer |
| EditDistance.LevZeroExactly | crates/runa-media/src/asr.rs:230-244 | the distance is zero iff the lists are equal |
| Vad.EnergyVad | crates/runa-media/src/asr.rs:151-205 | the spans are tidy, that is non-empty, in bounds, sorted and more than the merge gap apart, and hold exactly the samples near speech or in a short gap between such; a clip without speech is one span |
| Vad.AddRunScanned | crates/runa-media/src/asr.rs:184-194 | padding a run and merging it with the last span keeps both |
| Vad.RunReach | crates/runa-media/src/asr.rs:180-187 | the padded frames of a run reach exactly from its padded start to its padded end |
| Vad.SpansAreDetermined | crates/runa-media/src/asr.rs:151-205 | tidy spans are determined by the samples they hold |
| Vad.SpeechInsideOneSpan | crates/runa-media/src/asr.rs:151-205 | every frame with speech lies, padded, inside a single span |
| Frames.PickIndices | crates/runa-media/src/video.rs:63-130 | strictly increasing, in range, exactly min(n, max) of them; the last frame is kept iff two fit; every scene cut is kept iff the chosen ones fit; then the filled set, otherwise the thinned list |
| Frames.ThinOut | crates/runa-media/src/video.rs:87-108 | first, last and evenly spaced ones, through sort, dedup and truncation |
| Frames.ThinIs | crates/runa-media/src/video.rs:94-101 | the evenly spaced positions never collide, so thinning gives exactly as many as asked |
| Frames.SpacedGrows | crates/runa-media/src/video.rs:96-98 | `1 + k*inner/need` strictly grows with `k` |
| Frames.SpacedEvenly | crates/runa-media/src/video.rs:96-98 | neighbouring positions are equally far apart, but for one |
| Frames.ThinAt | crates/runa-media/src/video.rs:94-101 | the k-th inner index kept stands at the k-th share of the inner indices, rounded down |
| Frames.FillUp | crates/runa-media/src/video.rs:109-129 | the fill loop always makes progress and ends with the filled set, sorted |
| Frames.Fill | crates/runa-media/src/video.rs:109-127 | keeps what was chosen and has exactly as many as asked, all in range |
| Frames.NextFillIsNew | crates/runa-media/src/video.rs:110-122 | the next frame of the fill is in range and not taken yet |
| Frames.NextFillIs | crates/runa-media/src/video.rs:109-122 | the next frame of the fill is the even position for the number chosen so far, or the first free frame where that is taken |
| Sse.SseTools.Accept | crates/runa-cloud/src/anthropic.rs:405-461 | starts and deltas build the block of their index |
| Sse.SseTools.TakeCalls | crates/runa-cloud/src/anthropic.rs:463-509 | flushes the blocks once, in index order |
| Sse.PushEvent | crates/runa-cloud/src/anthropic.rs:512-594 | one event's step on output and accumulator; over a stream that is `StreamIsTold` |
| SseFraming.ParseLines | crates/runa-cloud/src/anthropic.rs:353-383 | the loop over lines frames and decodes the events, stops with an error at the first data that does not decode, and otherwise gives their parse with a last flush, which is `WireParses` and `StreamIsTold` |
| SseFraming.WireParses | crates/runa-cloud/src/anthropic.rs:353-383 | events sent as lines of data, in any text that decodes to them, over several lines, among other fields, closed by a blank line or at the end, are parsed to exactly these events; blank data and the end mark are none |
| SseFraming.RefusedLater | crates/runa-cloud/src/anthropic.rs:370-377 | data that does not decode spoils the whole, whatever comes later |
| SseFraming.BadEvent | crates/runa-cloud/src/anthropic.rs:353-383 | one event that does not decode, anywhere in a body, refuses the body |
| SseFraming.PushData | crates/runa-cloud/src/anthropic.rs:512-520 | blank data and the end mark are ignored, other data is decoded and pushed |
| Sse.AtMostOneToolUse | crates/runa-cloud/src/anthropic.rs:353-594 | any stream yields at most one tool-use event |
| SseText.StreamIsTold | crates/runa-cloud/src/anthropic.rs:512-594 | for any stream the text events join to the strings of the text deltas, the reasoning events to those of the thinking deltas, none is empty, usage and refusals are those of the message deltas, and so are the ends, to which a message stop adds one if nothing ended before |
| SseText.DoneComesLast | crates/runa-cloud/src/anthropic.rs:575-594 | the done event of a stop comes behind everything else of its delta |
| SseReassembly.BlocksAreIndependent | crates/runa-cloud/src/anthropic.rs:405-461 | a block depends only on the events of its index, whatever is interleaved |
| SseReassembly.BuiltFrom | crates/runa-cloud/src/anthropic.rs:405-461 | a block is its start and its fragments put together |
| SseReassembly.SentArrives | crates/runa-cloud/src/anthropic.rs:405-509 | a block sent in fragments alone, or inlined alone, arrives with the call and content of the whole block |
| SseReassembly.FlushIsArrived | crates/runa-cloud/src/anthropic.rs:463-509 | the flush gives the blocks that arrived in index order, whatever they were sent as |
| SseReassembly.FlushIsWhole | crates/runa-cloud/src/anthropic.rs:463-509 | for any blocks, any fragmentation and any interleaving that keeps the order per index, the flush gives the calls of the whole message in index order |
| SseReassembly.Reassembly | crates/runa-cloud/src/anthropic.rs:512-594 | those calls come directly before the `Done` of the message delta with the stop reason, and no other tool-use event is there |
| SseReassembly.CutShort | crates/runa-cloud/src/anthropic.rs:353-383 | a stream without that delta gives the calls at its end |
| InlinedInput.InlinedInputExactly | crates/runa-cloud/src/anthropic.rs:426-430 | a message with a tool block whose fragments spell its input yields its own tool use iff the start of that block brings no input text or the input is empty, its own calls iff the start brings none or the input is written like the empty one, and otherwise that call with an empty input |
| InlinedInput.SameCallsExactly | crates/runa-cloud/src/anthropic.rs:473-482 | changing one input changes the calls iff it is written differently |
| InlinedInput.SameContentExactly | crates/runa-cloud/src/anthropic.rs:482-487 | changing one input changes the content blocks |
| InlinedInput.EmptyObjectSpoils | crates/runa/src/serve.rs:1048-1062 | a call sent with an empty object in the start and the arguments in a fragment is parsed to a call with an empty input |
| Registry.ParseRows | crates/runa-memory/src/registry.rs:161-173 | the loop collects the rows of the lines |
| Registry.RewriteRows | crates/runa-memory/src/registry.rs:215-236 | the loop replaces the rows whose id is known and restores a missing final line feed |
| Registry.RowRoundTrip | crates/runa-memory/src/registry.rs:175-236 | a written row reads back as itself iff its id is one and its fields are trimmed and free of bars |
| Registry.ParsedIsClean | crates/runa-memory/src/registry.rs:175-198 | rows that were read always satisfy that |
| Registry.TaskIdExactly | crates/runa-memory/src/registry.rs:200-213 | an id is `P`, digits, a dot and digits, or `K` and digits |
| TextLines.TrimExactly | crates/runa-memory/src/registry.rs:175-180 | trimming takes white space off both ends and nothing else |
| RegistryText.RewriteLines | crates/runa-memory/src/registry.rs:215-236 | the written file has one line for each line it had |
| RegistryBytes.RawLinesAfter | crates/runa-memory/src/registry.rs:215-236 | the file is rewritten line by line, endings included: written rows are replaced, other lines keep their content, and every line feed stays while carriage returns before one go |
| RegistryBytes.OtherLinesStay | crates/runa-memory/src/registry.rs:220-232 | a line that is no written row stays byte for byte iff it does not end in a carriage return and a line feed |
| RegistryBytes.WrittenLineStays | crates/runa-memory/src/registry.rs:220-228 | a row's line becomes the written form of the new row with the ending it had |
| TaskClaims.OtherTasksLines | crates/runa-memory/src/registry.rs:82-138 | the line of another task stays byte for byte iff the request is refused or the line has the written form already |
| RegistryBytes.NothingWritten | crates/runa-memory/src/registry.rs:215-236 | writing no rows leaves a file as it was iff it has no carriage return before a line feed |
| RegistryBytes.RawLinesAreTheText | crates/runa-memory/src/registry.rs:219-231 | the lines with their endings are the whole text |
| RegistryText.RewriteThenParse | crates/runa-memory/src/registry.rs:161-236 | reading the written file gives every row, replaced if its id was written |
| RegistryText.FileRowsAreWritable | crates/runa-memory/src/registry.rs:161-198 | rows read from a file can be written again |
| TaskClaims.TaskRegistry.ClaimTask | crates/runa-memory/src/registry.rs:82-106 | claims against the file: not found, already claimed, or claimed |
| TaskClaims.TaskRegistry.ReleaseTask | crates/runa-memory/src/registry.rs:108-126 | releases against the file: not found, held by another, or released |
| TaskClaims.StepTextIsStepRows | crates/runa-memory/src/registry.rs:82-138 | for distinct ids a request changes the file exactly as it changes the rows |
| TaskClaims.RunTextIsRunRows | crates/runa-memory/src/registry.rs:82-138 | so does any run, replies included |
| TaskClaims.HeldAnswers | crates/runa-memory/src/registry.rs:90-119 | a held row answers every request with who holds it, except its holder's release |
| TaskClaims.HeldUntilReleased | crates/runa-memory/src/registry.rs:82-138 | over any run a held row keeps agent and start time iff the run has no release by that agent, and until then no request for it succeeds |
| TaskClaims.ClaimSticksExactly | crates/runa-memory/src/registry.rs:82-106 | a granted claim is what the file then shows iff agent and time can be written and no later row of the same id overrides it |
| TaskClaims.ReleaseSticksExactly | crates/runa-memory/src/registry.rs:108-126 | a granted release shows as a free row without agent and time iff no later row of the same id overrides it |
| TaskClaims.FreeAnswers | crates/runa-memory/src/registry.rs:82-126 | a request for a row that is not held is granted, and not found iff no row has the id |

## Left out

- Strings are sequences of single-unit characters; multi-byte text, UTF-8 decoding of token bytes and lossy decoding of GGUF strings (kept as bytes) are not modelled.
- Sampling above temperature zero, penalties, grammars, the kernel sampler, forced close tokens and close-tag bias: they change the greedy choice. A generation here has no think budget and no tool reply.
- NaN and plus infinity among logits.
- Decode errors other than a full context, and token-to-piece errors.
- Timing fields, and storing the prompt cache; a restored prompt is taken to give back what a prefill of it leaves.
- Prefilled media prompts, whose first sampling index is -1.
- Wrap-around of machine integers is modelled only where the code saturates; `usize` is taken to have 64 bits, so a count never overflows it.
- The GGUF errors for over-long strings, a truncated tensor table and count overflow, which the code never produces on such a machine; ggml types stay raw tags and floats stay bits.
- Tensor byte sizes, tensor classification and the descriptor built from a header: the planner starts from tensors with sizes and groups.
- GrowLoops.FetchUrl: the header cache at the start of `fetch_url` with its probe and entity tags, redirects and retries; a server is a file that answers each request partially, wholly or not at all.
- Floating point in the estimators: exact rationals with floors.
- Speed forecasts and recommendation texts of the planner.
- Threads and locks of the pool: requests and sweeps are atomic steps. Specifications, order and ids with profiles of the pool are not part of the model.
- The energy of a frame: the voice detector starts from which frames hold speech. Tokenising and normalising words for the error rate.
- Histograms, resizing and NaN distances of the frame selection; sorting and removing duplicates are the library's.
- JSON syntax of the event stream; one arbitrary function decodes an event from its data, two others read and write the JSON inside events.
- File access and the clock of the claim registry: the text is a field and the time an argument; a file that cannot be read is not modelled. Listing free tasks and their order.
- InlinedInput.InlinedInputExactly: an inlined number is not covered, because digits that follow continue it; tool inputs are objects.
- TaskClaims.HeldUntilReleased: for tables with distinct ids and requests that can be written, as other requests are covered by `ClaimSticksExactly`.
- Configuration, command line, services, terminal interface, other providers.
