# uGO bytecode patcher and ugodoc, in Dafny

This project models two parts of the uGO repository and proves what they
promise.

**The bytecode patcher** (`patcher/patcher.go`). `PatchForGosched` rewrites
every compiled function of a program. It puts the three instructions
`CONSTANT k; CALL 0 0; POP` at the top of each function and before every
backward `JUMP`, where `k` is the index of a new `goschedFunc` callable
appended to the constants. The `bytecodePatcher` does this in three passes
per function:

- `saveJumpPos` records every jump target operand (`posJump`);
- `generate` copies the instructions, asks the policy about each one, and
  for each insertion moves the recorded jumps and the source-map keys
  (`insertAt`);
- `updateJumps` rewrites every moved jump operand in the new bytes.

The model keeps the source's form:

- `instsIterator`, `sourceMapper`, `bytecodePatcher`, `goschedFunc` and the
  program objects are classes whose methods update fields;
- `posJump` is a value (`PosJump.InsertAt`);
- each pass is also given as a function of the instructions (`RecordsFrom`,
  `GenFrom`, `UpdateFrom`, `PatchFunction`). The methods are proved equal to
  these functions.

The lemmas then prove, for every input:

- where each instruction lands;
- that every jump points where its target moved;
- that the inserted calls stand where the policy asked;
- that the source map follows the instructions;
- that the output decodes.

The three patched programs recorded in `patcher/patcher_test.go` are
restated as lemmas on a concrete opcode table.

**ugodoc** (`cmd/ugodoc/main.go`). The tool turns the `ugo:doc` comments of
a module's Go package into Markdown:

- `extractComment` picks the marked comments;
- a `docgroup` routes their lines into a preamble and three sections (types,
  constants, functions) with a small block state machine;
- `formatComments` assembles the page or reports the errors recorded for
  function annotations.

The seven regular expressions are written out as predicates over code
points. The state machine (`DocGroup.ProcessBlocks`) is proved equal to a
reference definition (`Routed`). That definition routes each line by the
nearest second-level header before it. It is also proved equal to a
section-by-section gathering (`RoutedGathered`), from which the page
layout and its failure condition follow. `sortedFiles`' less-function is
modelled as written and as evidently intended (see Findings).

Foreign code enters as parameters or as a minimal model:

- the opcode table is a parameter (`Isa`), and `Isa.Valid` fixes only the
  operand widths;
- `ugo.MakeInstruction` and `ugo.ReadOperands` are given a big-endian
  codec, with its round trips proved;
- `getModuleItem` is a function parameter (`Lookup`).

## Model

| member | source | states |
|---|---|---|
| Decoder.GetOpWidths | patcher/patcher.go:384-392 | the table has one entry per opcode, each the sum of that opcode's operand widths |
| Decoder.InstsIterator.constructor | patcher/patcher.go:289-296 | a fresh iterator stands at position 0 of an empty buffer with no error |
| Decoder.InstsIterator.Next | patcher/patcher.go:298-310 | true exactly when the position is inside the buffer, no error is set and the opcode has a table entry; then the position moves by 1 + width and Pos() is the instruction's start; an unknown opcode sets InvalidOpcode(opcode, pos) and keeps the position; otherwise nothing changes |
| Decoder.InstsIterator.Operands | patcher/patcher.go:317-324 | one operand per operand of the current opcode in the table |
| Decoder.InstsIterator.Reset | patcher/patcher.go:338-342 | position 0, the new buffer, error cleared, opcode and offset kept |
| Decoder.StartScan | patcher/patcher.go:298-310 | decoding restarted at any instruction start reached from p ends with the same error as decoding from p |
| Decoder.DecodesWindow | patcher/patcher.go:298-310 | bytes that decode on their own decode in place inside a larger buffer when what follows them decodes |
| Ugo.MakeInstruction | patcher/patcher.go:42-56 | succeeds exactly when the operand count matches the table; the result is the opcode followed by 1 + width bytes |
| Ugo.ReadOperands | patcher/patcher.go:317-324 | one operand per width |
| Ugo.DecodeEncode | patcher/patcher.go:252-262 | reading an encoded operand gives the value modulo the operand's range |
| Ugo.EncodeDecode | patcher/patcher.go:252-262 | encoding a decoded operand gives back its bytes |
| Ugo.ReadEncodeOperands | patcher/patcher.go:252-262 | reading the operands that MakeInstruction wrote gives each argument modulo its width's range |
| Ugo.EncodeReadOperands | patcher/patcher.go:252-262 | re-encoding the operands read from a buffer gives back its operand bytes |
| Scan.CursorAt | patcher/patcher.go:312-332 | what the policy sees: the instruction's position, opcode, and one operand per width, each within its width's range |
| Scan.RecordsFromRecorded | patcher/patcher.go:178-211 | every record names a jump operand (opcode, slot, target) of the instruction at its position, not yet moved |
| Scan.RecordsFromOrdered | patcher/patcher.go:178-211 | records come in instruction order, and the two of a SETUPTRY in operand order |
| Scan.RecordsFromComplete | patcher/patcher.go:182-206 | every target operand of every JUMPFALSY, JUMP, ANDJUMP, ORJUMP and SETUPTRY is recorded |
| Relocation.ShiftPos | patcher/patcher.go:365-372 | a position before the insertion point stays; one at or after it moves by the inserted size |
| Relocation.ToOutput | patcher/patcher.go:222-223 | one output-coordinate insertion per planned insertion |
| Relocation.PosJump.InsertAt | patcher/patcher.go:275-285 | opcode and slot are kept; a record once flagged stays flagged; a record left unflagged is unchanged; the SETUPTRY target 0 stays the sentinel |
| Relocation.NetEffect | patcher/patcher.go:232-237 | applying the insertions one by one in output coordinates moves a position by the bytes inserted at or before it in input coordinates |
| Relocation.RecordNetEffect | patcher/patcher.go:275-285 | after all insertions a record's position and target are relocated, the SETUPTRY target 0 stays 0, and an unflagged record is unchanged |
| Relocation.ZipKeys | patcher/patcher.go:374-380 | the rebuilt map has exactly the keys of the key slice |
| Relocation.ZipValues | patcher/patcher.go:374-380 | with distinct keys, each key maps to the value beside it |
| Relocation.SourceMapper.constructor | patcher/patcher.go:347-350 | empty key and value slices |
| Relocation.SourceMapper.Reset | patcher/patcher.go:352-363 | the keys are the map's keys in iteration order and each value is the map's value for its key |
| Relocation.SourceMapper.InsertAt | patcher/patcher.go:365-372 | values are kept and every key is shifted as ShiftPos says |
| Relocation.SourceMapper.MakeSourceMap | patcher/patcher.go:374-380 | the map that assigns the values to the keys in slice order |
| Generation.GenFrom | patcher/patcher.go:213-230 | generate as a function: the bytes, the insertions in input coordinates, and the error it stops with |
| Generation.GenError | patcher/patcher.go:213-230 | generation fails whenever decoding does, and with the decoding error unless the policy's answer is unknown |
| Generation.GenPlanOrdered | patcher/patcher.go:213-230 | insertions are made in increasing order of position |
| Generation.GenPlanExact | patcher/patcher.go:213-230 | an insertion is made exactly at the instructions where the policy answers patchInsertBefore, with the size of the bytes it returned |
| Generation.GenLength | patcher/patcher.go:213-230 | the output is as long as the input plus the inserted bytes |
| Generation.GenLayout | patcher/patcher.go:219-224 | every input instruction reappears byte for byte at its relocated position |
| Generation.GenSuffix | patcher/patcher.go:213-230 | generation from a later instruction start is the tail of the whole generation |
| Generation.GeneratedBlob | patcher/patcher.go:222-224 | the bytes the policy returned sit right before the relocated instruction they were inserted for |
| Update.UpdateOne | patcher/patcher.go:244-262 | fails exactly when the record's opcode is not at its position, and then changes nothing; the length is kept |
| Update.UpdateFrom | patcher/patcher.go:239-263 | updateJumps as a function: records never moved are skipped, the first error stops the pass, the length is kept |
| Update.UpdateOneOk | patcher/patcher.go:252-261 | an update whose opcode is in place succeeds, changes only the record's operand bytes, and leaves the target (truncated to the width) in the operand |
| Update.UpdateFromOk | patcher/patcher.go:239-263 | with every opcode in place and records that do not overlap, the pass never fails and every record's operand holds its target |
| Update.UpdateFromSkipped | patcher/patcher.go:241-243 | records that were never moved change nothing |
| Update.UpdateFromFrame | patcher/patcher.go:239-263 | a byte outside the operand bytes of every moved record is left alone |
| Update.UpdateFromWindow | patcher/patcher.go:239-263 | a window that no moved record overlaps is left alone |
| PatchSpec.FoldKeys | patcher/patcher.go:365-372 | each source-map key is moved by every insertion in turn |
| PatchSpec.ValuesOf | patcher/patcher.go:352-363 | the values in the order the keys were loaded |
| PatchSpec.GeneratedAt | patcher/patcher.go:213-230 | after generate, each instruction starts at its relocated position with its own bytes |
| PatchSpec.MovedRecordsReady | patcher/patcher.go:239-263 | after generate every moved record's opcode is at its position, records do not overlap, and unflagged records already hold their targets |
| PatchSpec.PatchFunction | patcher/patcher.go:146-163 | the three passes and the source-map rebuild for one function; the old instructions and map are kept on error |
| PatchSpec.PatchErrors | patcher/patcher.go:146-163 | updateJumps never fails; a function fails exactly on an opcode outside the table or an unknown policy answer, and then nothing changes |
| PatchSpec.ScanErrorIsInvalidOpcode | patcher/patcher.go:302-305 | the only decoding error is the invalid-opcode error |
| PatchSpec.PatchFunctionOk | patcher/patcher.go:146-163 | a successful patch holds the bytes after updateJumps, the relocated source map and one count per insertion |
| PatchSpec.FinalCopy | patcher/patcher.go:239-263 | an instruction without jump targets keeps its generated bytes through updateJumps |
| PatchSpec.PatchLayout | patcher/patcher.go:146-176 | a patched function grows by exactly the inserted bytes; every instruction keeps its opcode at its relocated position and one without jump targets is copied unchanged |
| PatchSpec.PatchJumps | patcher/patcher.go:239-263 | every jump target operand holds its target's relocated position (SETUPTRY target 0 stays 0), truncated to the operand width |
| PatchSpec.PatchBlobs | patcher/patcher.go:219-224 | every insertion's bytes survive updateJumps right before the relocated instruction they were made for |
| PatchSpec.PatchSourceMap | patcher/patcher.go:158-159 | the new source map holds each old entry under its relocated key and nothing else |
| PatchSpec.PatchUnchanged | patcher/patcher.go:146-176 | a patch that inserts nothing leaves the instructions and the source map as they were |
| PatchDecode.FinalDecodes | patcher/patcher.go:213-263 | the bytes after updateJumps decode to the end when every inserted block decodes |
| PatchDecode.PatchDecodes | patcher/patcher.go:146-176 | a patched function decodes from its first byte to its last when the policy's inserted bytes do |
| Patcher.PatchRun | patcher/patcher.go:146-176 | patch as a function over the functions in visiting order, stopping after the first that fails: at most one result per function |
| Patcher.Outcome | patcher/patcher.go:158-159 | the functions reached hold their patch results, the others their old contents |
| Patcher.PatchRunResults | patcher/patcher.go:146-176 | every function reached is patched as on its own; all but the last succeeded; the run fails exactly when the last one reached failed; a run without error reaches every function; the insertion counts add up |
| Patcher.NextFunction | patcher/patcher.go:166-174 | the next index holding a compiled function, or the end, with no function skipped |
| Patcher.BytecodePatcher.constructor | patcher/patcher.go:137-144 | a fresh iterator and source mapper, no records, no bytes, the given program and policy |
| Patcher.BytecodePatcher.SaveJumpPos | patcher/patcher.go:178-211 | the records are RecordsFrom(0) and the error is the decoding error |
| Patcher.BytecodePatcher.InsertAt | patcher/patcher.go:232-237 | every record is moved by PosJump.InsertAt and every source-map key by ShiftPos |
| Patcher.BytecodePatcher.GenerateCurrent | patcher/patcher.go:215-227 | one loop turn: copy, insert then copy (moving records and keys), or an unknown-op error with nothing changed |
| Patcher.BytecodePatcher.Generate | patcher/patcher.go:213-230 | the new bytes and error are GenFrom's; records and keys are moved by every insertion in turn; the insertion count grows by one per insertion |
| Patcher.BytecodePatcher.UpdateJumps | patcher/patcher.go:239-263 | the bytes and error are UpdateFrom's |
| Patcher.BytecodePatcher.PatchFunctionAt | patcher/patcher.go:149-160 | the function holds PatchFunction's instructions and source map, and the error is PatchFunction's |
| Patcher.BytecodePatcher.Patch | patcher/patcher.go:146-176 | the error, the insertion count and every function's contents are those of PatchRun over Main then the compiled functions among the constants |
| Program.FunctionsInPrefix | patcher/patcher.go:165-174 | the functions among a prefix of the constants are a prefix of the functions |
| Program.VisitingNext | patcher/patcher.go:165-174 | moving to the next compiled function among the constants visits the next function in order |
| GoschedPolicy.InsertBlob | patcher/patcher.go:39-56 | the inserted bytes are seven bytes made by MakeInstruction without error |
| GoschedPolicy.BlobDecodes | patcher/patcher.go:29-33 | the inserted bytes decode as CONSTANT constIndex (mod 2^16), CALL 0 0, POP |
| GoschedPolicy.Policy | patcher/patcher.go:59-75 | insert at the top of a function and before a JUMP whose target is before it; otherwise go on |
| GoschedPolicy.PolicyAnswers | patcher/patcher.go:59-75 | the policy inserts exactly at position 0 and at backward jumps, always the blob, and otherwise answers patchNext |
| GoschedPolicy.PolicyGenError | patcher/patcher.go:213-230 | with this policy generate fails exactly where decoding does |
| GoschedPolicy.PolicyPlan | patcher/patcher.go:59-75 | an insertion of the blob's size is made at the start and at every backward jump, and nowhere else |
| GoschedPolicy.PolicyFunctionError | patcher/patcher.go:77-79 | a function fails to patch exactly with its decoding error |
| GoschedPolicy.BlobScans | patcher/patcher.go:39-56 | the inserted bytes decode to their end |
| GoschedPolicy.PolicyPatchDecodes | patcher/patcher.go:26-87 | a function that decodes is patched without error and its result decodes |
| GoschedPolicy.PolicyPatchCalls | patcher/patcher.go:59-75 | in the patched function the call sequence stands right before the relocated first instruction and every relocated backward jump |
| GoschedPolicy.PolicyRunErrors | patcher/patcher.go:77-79 | a whole patch fails only on an invalid opcode, and exactly when some function does not decode |
| GoschedPolicy.ApplyPolicy | patcher/patcher.go:57-79 | the error, count and function contents are those of PatchRun with the policy |
| GoschedPolicy.PatchForGosched | patcher/patcher.go:26-87 | the same, with the blob for the current constant count; on success one gosched callable with the threshold, the sleep flag and zero counters is appended and nothing else changes; on error the constants are kept |
| Gosched.GoschedFunc.constructor | patcher/patcher.go:81-84 | zero counters, the given threshold and sleep flag |
| Gosched.GoschedFunc.String | patcher/patcher.go:100 | a nine-character name in angle brackets, `<gosched>` |
| Gosched.GoschedFunc.CallEx | patcher/patcher.go:108-125 | numCalls grows by one modulo 2^64; the call parks exactly on every callThreshold-th call, when the counter resets to 0; otherwise the counter grows by one and stays below 2^32 |
| Gosched.NextRemainder | patcher/patcher.go:113-116 | how a counter modulo m moves on one call |
| Scenarios.EmptyProgram | patcher/patcher_test.go:130-143 | the empty program gets one insertion: CONSTANT 0, CALL 0 0, POP before RETURN 0, and the source map {0: 0} becomes {7: 0} |
| Scenarios.TryFinally | patcher/patcher_test.go:201-236 | try/finally gets one insertion; SETUPTRY 0 18 becomes SETUPTRY 0 25; every source-map key moves by 7 |
| LoopScenario.TryCatchLoop | patcher/patcher_test.go:144-200 | try/catch with a loop gets two insertions; SETUPTRY becomes 33 69, the forward jumps 69, the loop's jump back 36; keys before the jump back move by 7, the others by 14 |
| DocText.SpaceRun | cmd/ugodoc/main.go:41-47 | the longest run of `\s` at a position |
| DocText.WordRun | cmd/ugodoc/main.go:41-47 | the longest run of `\w` at a position |
| DocText.TrimSpaceCore | cmd/ugodoc/main.go:144 | strings.TrimSpace empties a string exactly when it is all spaces, and otherwise leaves non-spaces at both ends |
| DocText.TrimNewlinesEmpty | cmd/ugodoc/main.go:204-205 | strings.Trim(s, "\n") is empty exactly when s holds only newlines |
| DocText.SplitThenJoin | cmd/ugodoc/main.go:70 | joining strings.Split's pieces with newlines gives back the string |
| DocText.JoinThenSplit | cmd/ugodoc/main.go:70 | splitting newline-free pieces joined with newlines gives back the pieces |
| DocText.ModuleName | cmd/ugodoc/main.go:41 | the captured module name is a non-empty run of word characters after `#` |
| DocText.FuncName | cmd/ugodoc/main.go:45 | the captured function name is a non-empty run of word characters |
| DocText.SectionIsLevel2 | cmd/ugodoc/main.go:42-46 | every section header is a second-level header |
| UgoDoc.ExtractComment | cmd/ugodoc/main.go:269-277 | marked exactly when the trimmed first line starts with `ugo:doc`; then the text is the first line, a newline and the result; otherwise the result is "" |
| UgoDoc.ExtractMarked | cmd/ugodoc/main.go:269-277 | a comment whose first line carries the marker gives back exactly its body |
| UgoDoc.InvalidNameReachable | cmd/ugodoc/main.go:153-163 | the "invalid function name" branch is reachable: `f() -> ` matches before trimming and not after |
| UgoDoc.FuncsFold | cmd/ugodoc/main.go:148-172 | processFuncBlock over many lines leaves the module name, preamble, types and constants alone |
| UgoDoc.RoutedGathered | cmd/ugodoc/main.go:89-131 | handling lines one by one where they are routed equals gathering each section's lines in order |
| UgoDoc.FirstModuleHeader | cmd/ugodoc/main.go:72-86 | the first line that matches the module header, with no match before it, or no match at all |
| UgoDoc.FormatWithoutModule | cmd/ugodoc/main.go:196-224 | without a module header the page is the comments' lines as they are |
| UgoDoc.ProcessedModule | cmd/ugodoc/main.go:64-87 | with a module header: preamble, title and routed preamble lines; each section is its header plus its routed lines; the errors are those of the function annotations |
| UgoDoc.FormatSections | cmd/ugodoc/main.go:196-224 | the page is the preamble, the title, then each section under its header when it received a line |
| UgoDoc.FormatFailsAt | cmd/ugodoc/main.go:196-201 | a module's page fails exactly when a function annotation does not name an item of the module |
| UgoDoc.FormatFails | cmd/ugodoc/main.go:196-201 | formatComments fails only for a module, and then exactly as FormatFailsAt says |
| UgoDoc.SplitComments | cmd/ugodoc/main.go:68-71 | the lines of all comments, each split at its newlines |
| UgoDoc.FindModuleHeader | cmd/ugodoc/main.go:72-84 | the index of the first module header line |
| UgoDoc.DocGroup.constructor | cmd/ugodoc/main.go:197 | the zero docgroup |
| UgoDoc.DocGroup.AddError | cmd/ugodoc/main.go:60-62 | appends the message to the errors |
| UgoDoc.DocGroup.Process | cmd/ugodoc/main.go:64-87 | the new state is Processed of the old one |
| UgoDoc.DocGroup.ProcessBlocks | cmd/ugodoc/main.go:89-131 | the block state machine, step-back included, leaves the state the routing reference definition gives |
| UgoDoc.DocGroup.BlockStep | cmd/ugodoc/main.go:97-129 | one turn of the loop keeps the state equal to the routing of the lines read, and the measure decreases even when the index steps back |
| UgoDoc.DocGroup.ProcessTypeBlock | cmd/ugodoc/main.go:133-135 | appends the line to the types |
| UgoDoc.DocGroup.ProcessConstBlock | cmd/ugodoc/main.go:137-146 | appends the constant's entry: a list item with the item's rendering for a line starting with a word, the line itself otherwise |
| UgoDoc.DocGroup.ProcessFuncBlock | cmd/ugodoc/main.go:148-172 | keeps a non-annotation line; turns an annotation into its entry, after a separator unless it is the first, and records its error if any |
| UgoDoc.DocGroup.DropBlankFuncs | cmd/ugodoc/main.go:203-210 | drops exactly the trailing entries made only of newlines |
| UgoDoc.DocGroup.Assemble | cmd/ugodoc/main.go:199-223 | the joined errors, or the preamble then each section holding more than its header |
| UgoDoc.FormatComments | cmd/ugodoc/main.go:196-224 | the result is Format of the comments |
| UgoDoc.FileLess | cmd/ugodoc/main.go:242-264 | the less-function as written |
| UgoDoc.FileLessNotStrict | cmd/ugodoc/main.go:242-264 | the less-function as written is not a strict order: doc.go precedes itself, and doc.go and module.go each precede an ordinary file and are preceded by it |
| UgoDoc.FileRank | cmd/ugodoc/main.go:238-241 | the rank of a name is at most 2: doc.go, module.go, others |
| UgoDoc.FileOrder | cmd/ugodoc/main.go:238-264 | the corrected less-function is irreflexive, asymmetric, transitive and total |
| UgoDoc.FileLessAgrees | cmd/ugodoc/main.go:242-264 | the corrected function agrees with the source's except for an ordinary name compared with doc.go or module.go, and for a name compared with itself |

## Left out

- GoschedPolicy.PatchForGosched: the requires `0 < callThreshold` replaces the source's panic when callThreshold is 0 (patcher/patcher.go:35-37).
- GoschedPolicy.PatchForGosched: the requires `bc.Distinct()` (also on Patcher.BytecodePatcher.Patch and GoschedPolicy.ApplyPolicy) excludes a program in which the walk reaches the same compiled function twice. The source would patch such a function twice; the model does not capture that aliasing.
- Generation.PatchFunc: the policy is a pure function of a Cursor (position, opcode, operands). The source hands it the live iterator, which it only reads.
- Patcher.BytecodePatcher.numInserts: the insertion count is a field of the patcher, not the policy closure's captured counter. It grows exactly when generate inserts, which is exactly when the closure counts. When generate stops with an error, the closure has also counted that turn's insertion; with this policy generate never stops that way (PolicyGenError).
- Gosched.GoschedFunc.CallEx: returns `parked` instead of calling runtime.Gosched and, when `sleep` is set, time.Sleep(1). The `(ugo.Undefined, nil)` result, the mutex and Call/TypeName/CanCall are not modelled.
- GoschedPolicy.PatchForGosched: runtime.NumCPU() and runtime.GOMAXPROCS(0) are the parameters `numCPU` and `maxProcs`.
- UgoDoc.Lookup: getModuleItem is this function parameter. Its panics on an unknown module or a missing key, and the module value maps of ugo's time and strings modules, are not modelled.
- UgoDoc.Processed: the "Module header is invalid" branch (cmd/ugodoc/main.go:79-81) is left out. A line that matches the module header always has its capture group, so the branch cannot be reached.
- DocText: strings are sequences of Unicode code points. The UTF-8 bytes of Go strings, and regexp's handling of invalid UTF-8, are not modelled.
- Relocation.SourceMapper.Reset: Go's map iteration order is the `order` parameter, any enumeration of the keys (Enumerates). PatchSpec.PatchFunction and Patcher.BytecodePatcher.Patch take it too.
- Decoder.WellFormed: buffers whose last instruction runs past the end are excluded; the source panics on them while reading operands.
- Ugo.MakeInstruction: the big-endian encoder, Ugo.ReadOperands and the opcode numbering stand for ugo code that is not part of this model. Only the operand widths are fixed by Ugo.Isa.Valid.
- UgoDoc: main, extractPackageComments, the parsing of Go files, sort.Slice itself, path.Base and all file I/O are left out. The model starts from the comment texts and from file names.
- Scenarios.TryFinally: states every source-map key under the requires `forall k :: k in sm ==> 0 <= k` (keys are instruction offsets), over any map, instead of the literal map of the dump. LoopScenario.TryCatchLoop does the same.
- LoopScenario.TryCatchLoop: states the 76 output bytes as a concatenation of named pieces (LoopCall, LoopTop, …) and the rewritten SETUPTRY and jump instructions, not as one literal.
- Patcher.BytecodePatcher.UpdateJumps: the error wrapping text ("updateJumps: %w") and the other error messages are kept as structured Error values, not as formatted strings.

## Findings

| source | as written | input that shows it | evidently intended | confidence | as-written member | corrected member |
|---|---|---|---|---|---|---|
| cmd/ugodoc/main.go:242-264 | the less-function returns true for `doc.go` against anything (itself included), and true for any ordinary name against `doc.go` or `module.go` | `less("a.go", "doc.go")` and `less("doc.go", "a.go")` are both true, and `less("doc.go", "doc.go")` is true; sort.Slice needs a strict weak order, so the file order it gives is unspecified | doc.go first, module.go second, then the other names alphabetically (the comment at lines 238-241), as a strict total order | not executed | UgoDoc.FileLessNotStrict | UgoDoc.FileOrder |
