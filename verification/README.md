# CodeLLDB: a Dafny model of the adapter's protocols and translations

CodeLLDB is a debug adapter: a VS Code extension in TypeScript and an adapter process in Rust that drives
LLDB. This project models the parts of it that decide something on their own, and proves what they keep over
every input, every interleaving and every run.

* **`dbgconfig` expansion** (`VariableSyntax`, `ReferenceGraph`, `DbgConfig`, `LaunchConfig`,
  `FormedReferences`): the in-place rewriting of settings terminates on every reference graph and computes
  recursive substitution.
* **The disassembly window** (`Disassembler`, `DisassembleRequest`, `DisassembleFailures`): tiling of memory by instructions,
  alignment on the base address, and which entries a response holds. The index of disassembled ranges and the
  persisted line tables are in `DisassembledRanges`.
* **Framing of messages** (`Wire`, `Incremental`, `RustCodec`, `WritableBuffers`, `ReverseConnector`,
  `AdapterToExtension`): two different incremental decoders for one wire format, each independent of how the
  stream is cut, and each reading what the other end writes.
* **Variable handles** (`Handles`, `HandleHistory`, `HandleForest`, `EvalNames`): what handles and names mean
  across resets.
* **Requests and events** (`RequestPipeline`, `RequestHandling`, `RequestRuns`, `Dispatcher`, `EventListener`):
  state machines whose actions interleave freely.
* **Source breakpoints** (`Breakpoints`, `BreakpointRuns`): the session's records against the target's table.
* **Expressions** (`PythonGrammar`, `SimpleExpressions`, `Preprocess`, `QualifiedNames`) and **strings from LLDB**
  (`CStrings`).

Code that updates variables, maps or buffers step by step is modelled by methods and classes that are proved
against specification functions; the theorems are about those functions. LLDB's decoder, the debuggee's
memory, LLDB's string API and the effects of other threads are parameters with stated contracts.

Some promises do not hold as they stand. For these the model keeps what the code does, and states when the
promise holds:

* A disassembly window that lies before its base address always fails, and so does any at the last address
  (`AlwaysFailsIff`); one that runs past readable memory panics instead of being padded (`PanicsIffStreamEnds`,
  `ForwardPanicsIff`, `TwoInstructionsInOneByte`), although the comment at disassemble.rs:47-48 announces padding.
* A setting that is a lone `$` can form a reference with the text it is spliced into, and the result is then not
  what the settings mean (`FormedReferenceIsExpanded`, `FormedReferenceFails`); without such splices it always is
  (`ExpandSettings`).
* `-a ** b` is translated to Python text that means `-(a ** b)` (`TranslationPreservesStructure`).
* A line requested twice in one `setBreakpoints` call leaves a breakpoint behind (`CallKeepsStep`).
* The "not unique" warning of the handle tree misses duplicates (`SilentDuplicate`); `WarnsIff` says which.
* A range of instructions nested in another hides it from address lookup (`NestedRangeHides`, `LookupMisses`), an
  empty range is added again by every request (`EmptyRangeIsAddedAgain`, `AskingTwice`), and line tables with gaps
  of 2^32 bytes are not restored (`LinesRoundTrip`).
* Cancel requests are never answered (`AnsweredAtMostOnce`).

`dafny verify dfyconfig.toml` checks everything.

## Model

| member | source | states |
|---|---|---|
| `VariableSyntax.RenderTokenize` | extension/novsc/expand.ts:6 | splitting a text at the variables that the pattern matches and writing the pieces out again gives the text back, for every text |
| `VariableSyntax.TokenizeRender` | extension/novsc/expand.ts:6 | the other direction: a sequence of pieces in which no literal `$` is directly before a literal `{` is split again into exactly those pieces |
| `VariableSyntax.TokensWellFormed` | extension/novsc/expand.ts:6 | every variable that is found has a non-empty key without `}` and, if it has a kind, one without `:` and `}` |
| `ReferenceGraph.SpliceRefs` | extension/configUtils.ts:16-27 | after one rewrite a setting refers exactly to what the settings it referred to refer to; it succeeds only if all of them exist and none is the setting itself |
| `ReferenceGraph.SpliceFailure` | extension/configUtils.ts:16-27 | a rewrite fails only because of a key that is really referred to, and that is the setting itself or is undefined, according to the error |
| `ReferenceGraph.SpliceStable` | extension/configUtils.ts:30-33 | when every literal `$` has a literal other than `{` after it, or every literal `{` one other than `$` before it, the same holds of a splice, and it splits at exactly the variables it was made of |
| `ReferenceGraph.RewriteLowersRank` | extension/configUtils.ts:28-33 | in an acyclic reference graph, rewriting one setting lowers its rank and keeps every other rank valid |
| `ReferenceGraph.PassLowersRank` | extension/configUtils.ts:28-33 | a pass over the settings in any order lowers the rank of every setting it visits |
| `ReferenceGraph.RewriteShortensCycle` | extension/configUtils.ts:28-33 | rewriting a setting on a reference cycle leaves a strictly shorter cycle, unless it is reported |
| `ReferenceGraph.PassShortensCycle` | extension/configUtils.ts:28-33 | a pass that succeeds leaves a strictly shorter cycle of any cycle of any length, so a cycle is reported after finitely many passes |
| `ReferenceGraph.RankedIsAcyclic` | extension/configUtils.ts:13-34 | a reference graph with a rank function has no cycle |
| `ReferenceGraph.AcyclicIsRanked` | extension/configUtils.ts:13-34 | conversely every acyclic reference graph has a rank function; the two progress measures therefore cover all inputs |
| `ReferenceGraph.SpliceFlat` | extension/configUtils.ts:16-27 | only references matter: turning variables of other kinds into text before a splice or after it comes to the same |
| `DbgConfig.RewriteText` | extension/configUtils.ts:30-33 | rewriting the text of a setting is splicing its references and literal characters, with the same errors, whenever the splice neither forms nor destroys a reference |
| `DbgConfig.PassText` | extension/configUtils.ts:28-33 | the same for a whole round, rewrite by rewrite, in any key order |
| `DbgConfig.ReferenceReplaced` | extension/configUtils.ts:16-27 | a reference is replaced by the value of its key, or reported as circular or undefined, and the text after it is expanded in its turn |
| `DbgConfig.OtherVariableKept` | extension/novsc/expand.ts:10-15 | a variable of another kind, or of none, is left as it is |
| `DbgConfig.LiteralKept` | extension/novsc/expand.ts:10-15 | so is every character that does not start a variable |
| `DbgConfig.StableIsClean` | extension/configUtils.ts:28-34 | a condition on the settings alone for this to hold in every round: every literal `$` is followed by a literal other than `{`, or every literal `{` is preceded by one other than `$` |
| `DbgConfig.RewriteMeaning` | extension/configUtils.ts:30-33 | any solution of the rewritten settings, read as equations, solves the settings before the rewrite |
| `DbgConfig.PassMeaning` | extension/configUtils.ts:28-34 | a whole pass, in any key order, keeps the meaning of the settings likewise |
| `DbgConfig.SolutionUnique` | extension/configUtils.ts:13-34 | acyclic settings have at most one solution |
| `DbgConfig.PassFailure` | extension/configUtils.ts:16-33 | when a pass fails at a later, already rewritten stage, the reason lies in the original settings: an undefined key that one of them names, or a cycle |
| `DbgConfig.ExpandRound` | extension/configUtils.ts:28-33 | the body of the do-while, as a loop that updates the settings, for all settings: it computes the round, and the `converged` flag is set exactly when there was no reference left |
| `DbgConfig.RoundProgress` | extension/configUtils.ts:28-34 | every round that does not converge lowers the bound on the remaining rounds, in the acyclic and in the cyclic case |
| `DbgConfig.ExpandSettings` | extension/configUtils.ts:10-34 | for all settings and every key order, as long as no rewrite that is reached forms or destroys a reference: the fixed-point loop terminates; it succeeds if and only if every reference is defined and the reference graph is acyclic; the result is the solution of the settings as equations and has no reference left; the error names a real cause |
| `LaunchConfig.ValueDefined` | extension/novsc/expand.ts:8-27 | expanding a nested value succeeds if and only if every key it refers to, at any depth, is defined; otherwise the error names one that is not |
| `LaunchConfig.ValueRefFree` | extension/configUtils.ts:36-47 | one pass over the launch configuration is enough: expanded against settings without references, it has none, unless a splice forms one |
| `LaunchConfig.ValueExpanded` | extension/novsc/expand.ts:8-27 | what expansion does to a nested value, position by position: texts are expanded, scalars, property names, lengths and order stay; without references nothing changes |
| `LaunchConfig.ExpandVariables` | extension/novsc/expand.ts:8-27 | the recursive method with its loops over arrays and objects: the result is the value with its texts expanded and nothing else changed, and the value itself if there is no reference in it; errors included |
| `LaunchConfig.ExpandEach` | extension/novsc/expand.ts:20-27 | the loop over the elements of an array or the properties of an object expands each in order and stops at the first error |
| `LaunchConfig.ExpandDbgConfig` | extension/configUtils.ts:10-47 | the whole function succeeds if and only if all references in the settings and in the launch configuration are defined and the settings are acyclic; the result is the launch configuration with each of its texts expanded against the one solution of the settings and nothing else changed, and no reference is left in it |
| `FormedReferences.FormsMeaning` | extension/configUtils.ts:13-34 | a family of settings, one of which is a lone `$` spliced before a brace: all references are defined, there is no cycle, and the solution leaves the text of a reference in one setting |
| `FormedReferences.FormsUnclean` | extension/configUtils.ts:30-33 | in this family the first round forms a reference that no setting contains, in every key order |
| `FormedReferences.FormedReferenceIsExpanded` | extension/configUtils.ts:28-34 | the loop then stops with a result that does not solve the settings, in every key order |
| `FormedReferences.FormedReferenceFails` | extension/configUtils.ts:16-34 | or fails with an undefined key although every reference in the settings is defined |
| `Disassembler.ListingTiles` | src/codelldb/src/debug_session/disassemble.rs:177-200 | the instructions found in a buffer tile it: they are contiguous, cover every byte and are 1 to `max_instruction_bytes` long |
| `Disassembler.ListingShowsBytes` | src/codelldb/src/debug_session/disassemble.rs:177-200 | a byte that cannot be decoded is listed with the value that memory holds at its address |
| `Disassembler.ListingStarts` | src/codelldb/src/debug_session/disassemble.rs:181-190 | a listing starts with all the instructions the decoder found, each as long as the decoder said, and goes on after the last of them |
| `Disassembler.ListingDecoded` | src/codelldb/src/debug_session/disassemble.rs:181-199 | every item of a listing is what the decoder said at its offset: one of the instructions it found or, if it found none, a single byte |
| `Disassembler.TilesCount` | src/codelldb/src/debug_session/disassemble.rs:20-29 | a tiling has at most as many items as bytes, and at least bytes divided by the maximum size |
| `Disassembler.BytesIsProduct` | src/codelldb/src/debug_session/disassemble.rs:20-26 | the byte count used in the proofs is the product of the source |
| `Disassembler.TakeInstructions` | src/codelldb/src/debug_session/disassemble.rs:183-190 | the inner loop lists the decoded instructions and advances address and buffer by the sum of their sizes |
| `Disassembler.DecodeSome` | src/codelldb/src/debug_session/disassemble.rs:181-199 | one round of the outer loop lists what one call of the decoder yields and leaves a strictly shorter buffer, whether or not the decoder recognises anything |
| `Disassembler.DisassembleBytes` | src/codelldb/src/debug_session/disassemble.rs:177-200 | the loop terminates for every buffer and yields the listing |
| `Disassembler.Bisect` | src/codelldb/src/debug_session/disassemble.rs:212-228 | for any predicate, monotone or not, the result is a place where the predicate changes from true to false, or an end of the range |
| `Disassembler.BisectFindsBoundary` | src/codelldb/src/debug_session/disassemble.rs:212-228 | for a predicate that never turns true again the result is the first address for which it is false |
| `Disassembler.PartitionPoint` | src/codelldb/src/debug_session/disassemble.rs:212-228 | the loop that narrows `low` and `high` computes that place |
| `Disassembler.FirstReadable` | src/codelldb/src/debug_session/disassemble.rs:148-175 | the address found is readable and the one before it is not, unless it is an end of the range |
| `Disassembler.Readable` | src/codelldb/src/debug_session/disassemble.rs:148-175 | what is read lies within the range asked for |
| `Disassembler.ReadableBytes` | src/codelldb/src/debug_session/disassemble.rs:150-175 | the bytes are those that memory delivered at the address returned, and the whole range is read whenever that is possible |
| `Disassembler.ReadableRest` | src/codelldb/src/debug_session/disassemble.rs:158-175 | memory that is unreadable up to a point is read from exactly that point on |
| `Disassembler.ReadMemory` | src/codelldb/src/debug_session/disassemble.rs:148-175 | the method reads all of the range, or else what follows its unreadable beginning |
| `DisassembleRequest.WrapNext` | src/codelldb/src/debug_session/disassemble.rs:12-15 | wrapping 64-bit addition: addresses in range are themselves, and each is followed by the next, zero following the highest |
| `DisassembleRequest.AlignSound` | src/codelldb/src/debug_session/disassemble.rs:29-44 | the aligned stream tiles memory up to the end of what was read, has an instruction at the base and skips fewer bytes than the maximum instruction size |
| `DisassembleRequest.AlignFewest` | src/codelldb/src/debug_session/disassemble.rs:29-44 | no smaller skip would do, and alignment fails only if no skip below the maximum instruction size does |
| `DisassembleRequest.AlignLists` | src/codelldb/src/debug_session/disassemble.rs:29-44 | the stream is the listing of all the bytes that are not skipped |
| `DisassembleRequest.FindAlignment` | src/codelldb/src/debug_session/disassemble.rs:29-44 | the loop skips the fewest bytes that make an instruction start at the base address |
| `DisassembleRequest.PadBefore` | src/codelldb/src/debug_session/disassemble.rs:49-58 | the entries before the first decoded instruction have consecutive wrapping addresses that end just before it |
| `DisassembleRequest.WindowPlaces` | src/codelldb/src/debug_session/disassemble.rs:47-133 | entry `k` is the instruction `offset + k` places from the one at the base, or padding where the stream has none so far in front |
| `DisassembleRequest.CutWindow` | src/codelldb/src/debug_session/disassemble.rs:47-133 | padding and slice as computed from the start and end indices, with the out-of-range slice as a panic |
| `DisassembleRequest.Fetch` | src/codelldb/src/debug_session/disassemble.rs:20-28 | the saturating bounds of the memory read, on all inputs that do not overflow the products |
| `DisassembleRequest.HandleAt` | src/codelldb/src/debug_session/disassemble.rs:16-138 | the request for a given base address: negative count, failed alignment, panic or response |
| `DisassembleRequest.HandleDisassemble` | src/codelldb/src/debug_session/disassemble.rs:10-138 | the request with its optional offsets |
| `DisassembleRequest.ResponseShape` | src/codelldb/src/debug_session/disassemble.rs:45-138 | every response has exactly the requested number of entries, neighbouring entries are neighbours in memory, and the entry at position `-instruction_offset` starts at the base address |
| `DisassembleRequest.ResponsePlaces` | src/codelldb/src/debug_session/disassemble.rs:29-138 | every response, for any offset, shows at position `k` the instruction `offset + k` places from the base in the aligned stream |
| `DisassembleRequest.InstructionsSkipped` | src/codelldb/src/debug_session/disassemble.rs:47-61 | when the window starts after the base, exactly `offset` instructions tile the memory between the base and the first entry |
| `DisassembleRequest.EnoughInstructions` | src/codelldb/src/debug_session/disassemble.rs:20-44 | skipping bytes for alignment costs no instruction before the base, and the bytes read after it hold enough instructions |
| `DisassembleRequest.FullWindow` | src/codelldb/src/debug_session/disassemble.rs:20-133 | when all memory asked for is readable and nothing saturates, an aligned request is answered with decoded entries only: the slice is in range and there is no padding |
| `DisassembleFailures.AlwaysFailsIff` | src/codelldb/src/debug_session/disassemble.rs:20-44 | a request fails for every memory and every decoder if and only if the window ends before the base address or the base is the last address of all: the base itself is then not read |
| `DisassembleFailures.ForwardFailsIff` | src/codelldb/src/debug_session/disassemble.rs:20-44 | for a window that starts at the base or later, alignment fails if and only if the byte at the base cannot be read |
| `DisassembleFailures.ForwardResponse` | src/codelldb/src/debug_session/disassemble.rs:47-133 | for a window that starts at the base or later, the response is the listing from the base on without its first `offset` instructions, cut to `count` |
| `DisassembleFailures.PanicsIffStreamEnds` | src/codelldb/src/debug_session/disassemble.rs:47-61 | the slice is out of range if and only if the aligned stream has fewer instructions from the base on than the window needs |
| `DisassembleFailures.ForwardPanicsIff` | src/codelldb/src/debug_session/disassemble.rs:20-61 | for a window that starts at the base or later: it panics if and only if some bytes are read at the base, and they decode to fewer instructions than the window reaches to |
| `DisassembleFailures.ShortReadPanics` | src/codelldb/src/debug_session/disassemble.rs:61-133 | in terms of memory alone: with fewer readable bytes at the base than the window reaches to in instructions it panics, however they are decoded |
| `DisassembleFailures.ShortReadNeverAnswered` | src/codelldb/src/debug_session/disassemble.rs:61-133 | for any offset such a request is never answered, so the padding at the end is not reached |
| `DisassembleFailures.TwoInstructionsInOneByte` | src/codelldb/src/debug_session/disassemble.rs:61-133 | an input that panics: two instructions asked for where one byte can be read |
| `Wire.FindIs` | src/codelldb/src/dap_codec.rs:51-53 | searching finds the first occurrence |
| `Wire.FindStable` | src/codelldb/src/dap_codec.rs:51-53 | an occurrence that was found stays the first one when more bytes arrive |
| `Wire.NumberOfDecimal` | src/codelldb/src/dap_codec.rs:108-117 | writing a length in decimal and reading it gives the length |
| `Incremental.DrainAppend` | src/codelldb/src/dap_codec.rs:43-102 | decoding a buffer to its end and then more bytes gives the items and the state of decoding both together, for every decoder whose decisions are not changed by later bytes |
| `Incremental.ChunkingIrrelevant` | src/codelldb/src/dap_codec.rs:43-102 | hence any split of the input into chunks gives the same items and the same final state |
| `Incremental.DrainByPolling` | src/codelldb/src/dap_codec.rs:43-102 | repeated calls that return one item each, as the framed stream makes them, are the whole decoding |
| `RustCodec.StepSettled` | src/codelldb/src/dap_codec.rs:43-102 | no decision of the decoder, an error included, is changed by bytes that arrive later |
| `RustCodec.DecodingIgnoresChunking` | src/codelldb/src/dap_codec.rs:43-102 | for every byte stream and every split of it, inside a line end or a body too, repeated decoding gives the items and the final state of decoding it at once |
| `RustCodec.DAPCodec.Decode` | src/codelldb/src/dap_codec.rs:43-102 | the loop over state, length and buffer delivers the next message, asks for more or fails, and leaves the state and the unread bytes of the specification |
| `RustCodec.DAPCodec.Receive` | src/codelldb/src/dap_codec.rs:43-102 | polling the decoder after each chunk yields the whole decoding of what has arrived |
| `RustCodec.DAPCodec.Encode` | src/codelldb/src/dap_codec.rs:108-117 | appends one frame to the buffer |
| `RustCodec.LengthHeaderRead` | src/codelldb/src/dap_codec.rs:61-65 | a length header sets the length, however it is capitalised |
| `RustCodec.HugeLengthIgnored` | src/codelldb/src/dap_codec.rs:63-65 | a length that does not fit is ignored |
| `RustCodec.OriginRejected` | src/codelldb/src/dap_codec.rs:66-72 | an `Origin` header, however it is capitalised, is an error |
| `RustCodec.OtherHeaderSkipped` | src/codelldb/src/dap_codec.rs:57-74 | any other header line changes nothing |
| `RustCodec.FrameDecodes` | src/codelldb/src/dap_codec.rs:43-117 | a frame is decoded to its payload, whatever follows it, and decoding goes on after it |
| `RustCodec.FramesDecode` | src/codelldb/src/dap_codec.rs:43-117 | a sequence of frames is decoded to its payloads and leaves nothing unread |
| `RustCodec.ExtensionToAdapter` | extension/novsc/reverseConnector.ts:41-44 | what `handleMessage` writes is decoded by `DAPCodec` to exactly the messages sent, in order, for every chunking |
| `WritableBuffers.CeilingCovers` | extension/novsc/writableBuffer.ts:18-21 | rounding the needed size up to the increment covers it and exceeds it by less than one increment |
| `WritableBuffers.WritableBuffer.constructor` | extension/novsc/writableBuffer.ts:10-15 | a new buffer is empty |
| `WritableBuffers.WritableBuffer.Grow` | extension/novsc/writableBuffer.ts:18-23 | reallocation keeps the contents and makes room for the chunk with less than one increment to spare |
| `WritableBuffers.WritableBuffer.Write` | extension/novsc/writableBuffer.ts:17-27 | writing appends the chunk to the contents |
| `WritableBuffers.WritableBuffer.Head` | extension/novsc/writableBuffer.ts:37-41 | the first bytes, or an error when there are too few |
| `WritableBuffers.WritableBuffer.Remove` | extension/novsc/writableBuffer.ts:43-48 | shifting in place drops the first bytes, or changes nothing when there are too few |
| `ReverseConnector.StepSettled` | extension/novsc/reverseConnector.ts:46-93 | no decision of this decoder is changed by later bytes either, although it waits for a whole block of headers |
| `ReverseConnector.DecodingIgnoresChunking` | extension/novsc/reverseConnector.ts:46-93 | for every token, byte stream and split, the messages fired and the final state do not depend on the split |
| `ReverseConnector.ReverseAdapterConnector.ReadHeaders` | extension/novsc/reverseConnector.ts:53-64 | the loop over the header lines sets the length and the authentication of the specification |
| `ReverseConnector.ReverseAdapterConnector.Advance` | extension/novsc/reverseConnector.ts:48-91 | one round of the loop does one step of the specification on the in-place buffer |
| `ReverseConnector.ReverseAdapterConnector.HandleData` | extension/novsc/reverseConnector.ts:46-93 | a chunk fires exactly the messages that decoding buffer and chunk gives, keeps the undecoded rest, and disposes of the connection exactly when decoding fails |
| `ReverseConnector.ReverseAdapterConnector.HandleMessage` | extension/novsc/reverseConnector.ts:41-44 | writes one frame |
| `AdapterToExtension.StepAuthLength` | src/codelldb/src/lib.rs:114-118 | the token line and the first length line form one header block; it authenticates if and only if the token is the expected one |
| `AdapterToExtension.OtherLineIgnored` | extension/novsc/reverseConnector.ts:53-64 | header lines of other names change nothing |
| `AdapterToExtension.ParseSigned` | extension/novsc/reverseConnector.ts:57-58 | a length may be signed; a negative one leaves the connector among the headers |
| `AdapterToExtension.FrameDecodes` | extension/novsc/reverseConnector.ts:46-93 | once authenticated, a frame is decoded to its payload, or skipped if it is empty, and decoding goes on after it |
| `AdapterToExtension.WrittenDecodes` | src/codelldb/src/lib.rs:114-118 | token line and frames, decoded at once, give the payloads that are not empty and leave nothing unread |
| `AdapterToExtension.AdapterToExtension` | extension/novsc/reverseConnector.ts:46-93 | what the adapter writes, the token line and any non-empty list of messages, is decoded by `handleData` to exactly those messages that are not empty, in order, for every chunking |
| `AdapterToExtension.WrongTokenFiresNothing` | extension/novsc/reverseConnector.ts:69-73 | with any other token nothing is ever fired and the connection fails, for every chunking |
| `Handles.CreateKeepsInv` | src/codelldb/src/handles.rs:32-56 | a live object's parent is live and was created with a smaller handle, and handles on record stay consistent; the handle returned was not in use |
| `Handles.ResetKeepsInv` | src/codelldb/src/handles.rs:26-30 | resetting keeps those invariants |
| `Handles.HandleTree.ResetAll` | src/codelldb/src/handles.rs:26-30 | the current generation becomes the previous one and nothing is live |
| `Handles.HandleTree.CreateNewHandle` | src/codelldb/src/handles.rs:58-61 | hands out a value never handed out before |
| `Handles.HandleTree.CreateHandle` | src/codelldb/src/handles.rs:32-56 | the three maps, the handle and the warning are those of the specification |
| `HandleHistory.EveryRun` | src/codelldb/src/handles.rs:26-61 | over every run: a handle is bound forever to one parent and key and to one path of keys, no two creations between resets return the same handle, the first re-creation after a reset returns the handle last given to that place in the previous generation, and there is a warning if and only if the place was already created since the reset and had a handle before it |
| `HandleHistory.WhatResolves` | src/codelldb/src/handles.rs:63-75 | over every run: a handle resolves to a place and a value if and only if it was returned since the last reset by a creation with that place and value |
| `HandleHistory.WarnsIff` | src/codelldb/src/handles.rs:40-52 | the "not unique" branch is reached if and only if the place was already created since the last reset and had a handle in the generation before |
| `HandleHistory.OnePath` | src/codelldb/src/handles.rs:32-56 | following parents from any two creations that returned the same handle gives the same path of keys |
| `HandleHistory.NewReturns` | src/codelldb/src/handles.rs:32-56 | the step that makes handles return across a reset |
| `HandleHistory.SilentDuplicate` | src/codelldb/src/handles.rs:40-52 | the shortest run in which a duplicate is not reported: the same root key twice before any reset gets two handles and no warning |
| `HandleForest.RebuiltForest` | src/codelldb/src/handles.rs:26-56 | re-creating any parent-first forest after a reset, in any parent-first order, gives every object the handle it had; objects not re-created do not resolve |
| `EvalNames.ComposeAssociative` | src/codelldb/src/debug_session/variables.rs:635-651 | composition of names is associative |
| `EvalNames.ComposeParts` | src/codelldb/src/debug_session/variables.rs:635-651 | members are joined by a dot, indices directly, and an empty part leaves the other alone |
| `EvalNames.ComposeContainerEvalName` | src/codelldb/src/debug_session/variables.rs:141-155 | the walk up the tree terminates, never finds a missing parent, and returns the name defined by recursion over the ancestors |
| `EvalNames.NameKept` | src/codelldb/src/debug_session/variables.rs:141-155 | creating further handles changes no name |
| `EvalNames.ChildName` | src/codelldb/src/debug_session/variables.rs:216-217 | the name given to a variable when it is listed equals the name found later by walking up from it; scopes and register sets have none |
| `EvalNames.RootName` | src/codelldb/src/debug_session/variables.rs:141-155 | without a container a variable goes by its own name |
| `RequestPipeline.StepConserves` | src/codelldb/src/debug_session.rs:284-390 | every step of the filter and of the session conserves requests: what was forwarded is queued, running, awaited or answered |
| `RequestPipeline.StepDistinct` | src/codelldb/src/debug_session.rs:284-390 | every step keeps requests distinct wherever they are |
| `RequestPipeline.StepTokens` | src/codelldb/src/cancellation.rs:20-71 | every step keeps receiver counts right: an unanswered request in the queue or in its handler has its receiver |
| `RequestPipeline.StepTracks` | src/codelldb/src/debug_session.rs:304-308 | despite pruning by receiver count, the filter keeps track of every cancellable request whose receiver is alive |
| `RequestPipeline.StepFlags` | src/codelldb/src/debug_session.rs:309-340 | every step flags only requests that a cancel names or that a resume request sweeps, and a sweep reaches all it must |
| `RequestHandling.StepPends` | src/codelldb/src/debug_session.rs:304-345 | every step keeps in reach of a cancel each forwarded request that is not flagged and whose receiver is alive, and every cancel acted upon has reached the request it names |
| `RequestHandling.StepCalled` | src/codelldb/src/debug_session.rs:359-390 | every step keeps account of handlers: they are called for all requests but the flagged and the unknown ones, and for nothing else |
| `RequestHandling.StepStrays` | src/codelldb/src/cancellation.rs:20-71 | every step keeps receivers where they belong: in the filter, in the queue or in the session's current slot |
| `RequestRuns.FlaggedForAReason` | src/codelldb/src/debug_session.rs:309-340 | in every interleaving, a flagged request was named by a later cancel, or is scopes, variables or evaluate and followed by a resume request |
| `RequestRuns.CancelFlagsWhatItNames` | src/codelldb/src/debug_session.rs:309-317 | in every interleaving, once the filter has acted on a cancel, the earlier request it names is flagged or its handler is done |
| `RequestRuns.ResumeFlagsAllEarlier` | src/codelldb/src/debug_session.rs:304-340 | in every interleaving, once the filter has acted on a resume request every earlier cancellable request is flagged or its handler is done |
| `RequestRuns.FlaggedNeverEnters` | src/codelldb/src/debug_session.rs:359-362 | a request that is flagged before its handler is called never reaches its handler, however the run goes on |
| `RequestRuns.HandlerCalled` | src/codelldb/src/debug_session.rs:359-390 | in every interleaving, a request that is awaited or answered had its handler called unless it was flagged or unknown, and no other handler is called |
| `RequestRuns.TokensHeld` | src/codelldb/src/cancellation.rs:20-71 | in every interleaving, a token has a receiver exactly as long as its request is in the filter, in the queue or current |
| `RequestRuns.AnsweredAtMostOnce` | src/codelldb/src/debug_session.rs:359-390 | in every run no request is answered twice, and only forwarded ones that are not cancel requests are answered |
| `RequestRuns.AnsweredExactlyOnce` | src/codelldb/src/debug_session.rs:284-390 | when nothing is in flight, every request but the cancel requests has been answered exactly once |
| `SimpleExpressions.PythonReads` | src/codelldb/src/expressions/simple_expressions.rs:47-121 | Python's grammar accepts every emitted token sequence as a whole, and this is the tree it makes of it |
| `SimpleExpressions.ReparsedAsMeant` | src/codelldb/src/expressions/simple_expressions.rs:47-121 | the tree that Python sees is the intended one if and only if no sign stands bare to the left of a power operator |
| `SimpleExpressions.TranslationPreservesStructure` | src/codelldb/src/expressions/simple_expressions.rs:47-121 | for every tree the operator table can produce: the emitted tokens, parsed by Python's own precedence rules, are the intended tree (no regrouping, no comparison chaining) if and only if no bare sign is the base of a power |
| `SimpleExpressions.SignedBaseIsMisread` | src/codelldb/src/expressions/simple_expressions.rs:47-121 | the exception for all operands: `-a ** b` is read by Python as `-(a ** b)` |
| `Breakpoints.Session.PlaceRequest` | src/codelldb/src/debug_session/breakpoints.rs:105-148 | a live breakpoint of the line is reused, otherwise one is created; the condition is recorded |
| `Breakpoints.Session.DropUnrequested` | src/codelldb/src/debug_session/breakpoints.rs:150-155 | the loop over the old breakpoints removes exactly those of lines not requested, from the target and from the infos |
| `Breakpoints.Session.SetSourceBreakpoints` | src/codelldb/src/debug_session/breakpoints.rs:90-158 | the new state of all maps and of the target, and when the call fails |
| `Breakpoints.Session.HandleBreakpointEvent` | src/codelldb/src/debug_session/breakpoints.rs:771-811 | breakpoints of others are put on record by the event, known or deleted ones are not, removed ones are forgotten; the client is told of a new one exactly when it is put on record, and of changed locations and removals exactly when it was on record |
| `BreakpointRuns.CallKeepsStep` | src/codelldb/src/debug_session/breakpoints.rs:90-158 | a successful call keeps session and target in step if and only if no line that needs a new breakpoint is requested twice; otherwise a breakpoint is left behind that the session does not know |
| `BreakpointRuns.CallResult` | src/codelldb/src/debug_session/breakpoints.rs:90-158 | after a successful call the lines on record are the requested ones, each with a live breakpoint at that line, the same one as before where it was still live; dropped lines leave the target and the infos; other files, other breakpoints and their infos are untouched |
| `BreakpointRuns.ConditionsSet` | src/codelldb/src/debug_session/breakpoints.rs:105-148 | each requested breakpoint has the condition it was requested with |
| `BreakpointRuns.SucceedsIff` | src/codelldb/src/debug_session/breakpoints.rs:105-148 | a call fails if and only if the path has no file name and some line needs a new breakpoint |
| `BreakpointRuns.FailedCallKeepsInv` | src/codelldb/src/debug_session/breakpoints.rs:105-148 | a call that fails leaves the target and the records of all files as they were |
| `BreakpointRuns.StepKeepsInv` | src/codelldb/src/debug_session/breakpoints.rs:90-158 | so does every call with distinct lines, every change by others and every event |
| `BreakpointRuns.EveryRun` | src/codelldb/src/debug_session/breakpoints.rs:90-158 | over every run, the live breakpoints created by the session are exactly those on record, except those removed by others |
| `BreakpointRuns.LiveAreLastRequested` | src/codelldb/src/debug_session/breakpoints.rs:90-158 | over every run, the lines on record for each file are those of the last successful call for it; each has a breakpoint of its own at that line, live unless others removed it; there is no further live breakpoint of the session |
| `EventListener.DebugEventListener.Cork` | src/codelldb/src/debug_event_listener.rs:70-74 | is the corking step of the protocol: it sets both flags |
| `EventListener.DebugEventListener.Uncork` | src/codelldb/src/debug_event_listener.rs:77-80 | is the uncorking step: it leaves the sticky flag |
| `EventListener.DebugEventListener.WaitForEvent` | src/codelldb/src/debug_event_listener.rs:42-43 | is the step in which the wait returns, without the lock |
| `EventListener.DebugEventListener.ProcessEvent` | src/codelldb/src/debug_event_listener.rs:45-61 | is the step under the lock: the event is offered unless the sticky flag is set, which then follows the other flag |
| `EventListener.StickyFlag` | src/codelldb/src/debug_event_listener.rs:40-62 | in every interleaving, the sticky flag is set if and only if the listener was corked at some moment since the last pass |
| `EventListener.ForwardedIff` | src/codelldb/src/debug_event_listener.rs:40-62 | in every interleaving, an event that the channel has room for is forwarded if and only if the listener was never corked since the pass before |
| `EventListener.NothingElseForwarded` | src/codelldb/src/debug_event_listener.rs:40-80 | no other action forwards anything |
| `EventListener.ProcessedWasReceived` | src/codelldb/src/debug_event_listener.rs:42-61 | a pass deals with what the wait before it returned |
| `EventListener.StaysCorked` | src/codelldb/src/debug_event_listener.rs:70-80 | after corking, the listener is corked until it is uncorked |
| `EventListener.CorkedReceiptIsDropped` | src/codelldb/src/debug_event_listener.rs:40-62 | an event whose wait overlaps a corked moment is not forwarded, even if it is processed after uncorking |
| `EventListener.OnlyFirstPassDrops` | src/codelldb/src/debug_event_listener.rs:40-80 | after uncorking, every event but that of the first pass is forwarded until the next cork, if the channel has room |
| `EventListener.ForwardedInOrder` | src/codelldb/src/debug_event_listener.rs:40-62 | the forwarded events are a subsequence of the received ones in their order, whatever the channel does |
| `Dispatcher.DAPSession.Send` | src/codelldb/src/dap_session.rs:123-133 | numbers the message and, for a reverse request, records who waits for the response |
| `Dispatcher.DAPSession.Dispatch` | src/codelldb/src/dap_session.rs:52-136 | each kind of input changes the state as specified, an unmatched response not at all |
| `Dispatcher.EveryRun` | src/codelldb/src/dap_session.rs:52-136 | over every run: outgoing numbers are 1, 2, 3 and so on; every reverse request is pending or delivered, never both, and delivered at most once and to its own sender |
| `Dispatcher.DeliveredWasReceived` | src/codelldb/src/dap_session.rs:52-136 | whatever was delivered to a sender came in a response with that number and that payload |
| `Dispatcher.NumberSent` | src/codelldb/src/dap_session.rs:123-133 | over every run, messages are numbered by how many were sent before |
| `Dispatcher.WaitsForResponse` | src/codelldb/src/dap_session.rs:52-136 | over every run, a reverse request waits under its number until a response with that number arrives |
| `Dispatcher.ResponseDelivered` | src/codelldb/src/dap_session.rs:52-136 | over every run, the first response with the number of a reverse request is delivered to its sender |
| `DisassembledRanges.Ranges.FindByHandle` | src/codelldb/src/disassembly.rs:33-35 | what is found is the range with that handle in the other index, and nothing is found only if no range there has it |
| `DisassembledRanges.EveryAddition` | src/codelldb/src/disassembly.rs:89-117 | over every sequence of additions both indices hold the same ranges under distinct handles, the one in order of address |
| `DisassembledRanges.HandlesResolve` | src/codelldb/src/disassembly.rs:89-117 | over every sequence of additions handles are consecutive, and each resolves for ever to the range it was given to |
| `DisassembledRanges.Ranges.FindByAddress` | src/codelldb/src/disassembly.rs:37-47 | binary search and containment test of the specification |
| `DisassembledRanges.Ranges.Add` | src/codelldb/src/disassembly.rs:89-117 | the new range gets the next handle and is inserted in order, and both indices keep holding the same ranges with distinct handles |
| `DisassembledRanges.Ranges.FromAddress` | src/codelldb/src/disassembly.rs:49-87 | a range that is found is returned and nothing is added; otherwise what is disassembled is added |
| `DisassembledRanges.AddKeepsInv` | src/codelldb/src/disassembly.rs:89-117 | sortedness, agreement of the indices and distinct handles are kept by every addition |
| `DisassembledRanges.LookupSound` | src/codelldb/src/disassembly.rs:37-47 | what is found is one of the ranges and contains the address, even when ranges overlap |
| `DisassembledRanges.LookupMisses` | src/codelldb/src/disassembly.rs:37-47 | exactly when a lookup misses, for any ranges in order: the last one that starts at or before the address, if there is one, ends at or before it |
| `DisassembledRanges.LookupIsScan` | src/codelldb/src/disassembly.rs:37-47 | for disjoint ranges the binary search finds a range if and only if it contains the address |
| `DisassembledRanges.NestedRangeHides` | src/codelldb/src/disassembly.rs:37-47 | an input that is missed although a range contains it: a range that starts later has already ended |
| `DisassembledRanges.FoundAfterAdd` | src/codelldb/src/disassembly.rs:37-117 | a range just added is found at an address if and only if it contains the address and no other range starts between its start and the address |
| `DisassembledRanges.AskingTwice` | src/codelldb/src/disassembly.rs:49-87 | asking again for the same address returns the same range and adds nothing, if and only if it was found the first time or the range loaded contains the address and no other starts in between |
| `DisassembledRanges.EmptyRangeIsAddedAgain` | src/codelldb/src/disassembly.rs:63-80 | a single instruction without a symbol makes an empty range, which every further request adds again |
| `DisassembledRanges.LinesRoundTrip` | src/codelldb/src/disassembly.rs:156-175 | the persisted line table restores the address of every line if and only if no two neighbouring instructions are 2^32 or more bytes apart |
| `DisassembledRanges.HeaderLines` | src/codelldb/src/disassembly.rs:166-175 | the lines of the header stand for the start of the range |
| `DisassembledRanges.LineOfAddress` | src/codelldb/src/disassembly.rs:148-154 | the line of an instruction's address is the line that shows it: the two lookups are inverse |
| `CStrings.GetCString` | src/lldb/src/strings.rs:51-87 | terminates and returns the whole string for every API that stores it whole when it fits, whatever size convention each call follows |
| `Preprocess.QualifiedIdent` | src/codelldb/src/expressions/qualified_ident.rs:27-66 | the mutually recursive recognisers make strict progress and stay within the text |
| `QualifiedNames.PathRead` | src/codelldb/src/expressions/qualified_ident.rs:27-66 | every name made of parts joined by `::`, each with any template parameters nested to any depth and blanks around them, is recognised to its end, unless the text after it continues it |
| `Preprocess.PythonString` | src/codelldb/src/expressions/preprocess.rs:16-33 | a recognised literal is at least two characters long and within the text |
| `Preprocess.Native` | src/codelldb/src/expressions/preprocess.rs:36-45 | a recognised native expression is an evaluated piece whose source form starts the text |
| `Preprocess.NothingLost` | src/codelldb/src/expressions/preprocess.rs:57-80 | every input is consumed to its end, so neither error arm can be taken; putting each piece back into its source form gives the input |
| `Preprocess.NothingToEvaluate` | src/codelldb/src/expressions/preprocess.rs:57-80 | input without `$` is unchanged |
| `Preprocess.LiteralCopied` | src/codelldb/src/expressions/preprocess.rs:57-80 | a literal is copied verbatim and preprocessing goes on after it |
| `Preprocess.LiteralRecognised` | src/codelldb/src/expressions/preprocess.rs:16-33 | every properly escaped literal of either delimiter is recognised whole, so that no `$` inside it is evaluated |
| `Preprocess.RawLiteralRecognised` | src/codelldb/src/expressions/preprocess.rs:29-30 | so is every raw literal that is not empty, in which a backslash escapes nothing |
| `Preprocess.CharacterCopied` | src/codelldb/src/expressions/preprocess.rs:57-74 | a character that can start neither a literal nor a native expression is copied |
| `Preprocess.OtherwiseCopied` | src/codelldb/src/expressions/preprocess.rs:57-74 | so is one that could and does not |
| `Preprocess.BracedEvaluated` | src/codelldb/src/expressions/preprocess.rs:36-45 | a braced expression is evaluated up to its first closing brace, and preprocessing goes on after it |
| `QualifiedNames.PathEvaluated` | src/codelldb/src/expressions/preprocess.rs:36-45 | a `$` before such a name, which may start with `::`, evaluates the whole name and nothing more |
| `QualifiedNames.NameEvaluated` | src/codelldb/src/expressions/preprocess.rs:36-45 | in particular `$name` evaluates the name |
| `QualifiedNames.TwoParts` | src/codelldb/src/expressions/preprocess.rs:36-45 | and `$a::b` evaluates both parts |

## Left out

- DbgConfig.ExpandSettings: says nothing about runs in which a splice forms or destroys a reference, beyond the family in `FormedReferences`; what the references in the settings say is then not what is expanded.
- LaunchConfig.ExpandDbgConfig: the same holds for the settings. Settings that are not strings (arrays and objects, which are converted by `toString`, and `null`) and keys inherited from the object prototype are not modelled.
- DisassembleRequest.HandleDisassemble: requires, for a count that is not negative, that the fixed-width products and sums do not overflow. Parsing of the memory reference is not modelled.
- DisassembleRequest.CutWindow: entries stand for address ranges; instruction text, symbols, source locations and the formatting of bytes are not modelled, nor is the padding loop at the end, which cannot be reached.
- DisassembleFailures.ShortReadPanics: goes one way, being a statement about memory alone; `ForwardPanicsIff` and `PanicsIffStreamEnds` are the exact conditions, in terms of the decoded instructions.
- RustCodec.DAPCodec.Decode: messages are opaque bytes: JSON is not modelled, nor are the end of the stream and debug logging.
- ReverseConnector.ReverseAdapterConnector.HandleData: header text is compared byte by byte, `parseInt` skips ASCII white space only, and lengths are exact below 2^53.
- AdapterToExtension.AdapterToExtension: the adapter writes the token line before its first message, so an empty list of messages leaves an unfinished header and is excluded.
- Handles.HandleTree.CreateHandle: requires a live parent, where the source panics otherwise; handle values are unbounded.
- EvalNames.ComposeContainerEvalName: containers are scopes, register groups and other variables; the expression paths that LLDB computes for variables without synthetic children are not modelled.
- RequestPipeline.StepConserves: the filter and the session run concurrently, so they are a state machine on values and not methods; callbacks on cancellation, channel capacity and lagging subscribers are not modelled, and request numbers are unique.
- Breakpoints.Session.SetSourceBreakpoints: columns, hit conditions, log messages, the contents of responses and the search for nearby locations are not modelled, except that the search uses up an id; other kinds of breakpoints occur as changes by others.
- SimpleExpressions.TranslationPreservesStructure: starts from operator trees and ends at tokens; the parser combinators that build the trees and the lexing of characters are not modelled.
- Preprocess.BracedEvaluated: the native text is put between quotes as it is, as in the source; what Python makes of quotes inside it is not modelled, nor is the text of syntax errors.
- CStrings.GetCString: the string is free of NUL and the API never fails; conversion to Rust strings is not modelled.
- LLDB's own wrappers, the Python scripts, launching, attaching and terminals, value formatting and stepping: results are decided by LLDB and the operating system.
- Views, cargo integration, the installer and web views: user interface and process plumbing.
- Hit conditions, path normalisation, merging of values and version comparison: they would only add easy members.
