# Why: a verified model of the linker, the object format and the machine

Why is a 64-bit instruction set with a toolchain (`wasmc`: assembler, linker, binary parser) and a virtual machine
(`wvm`). This project models the parts whose correctness is decided by code rather than by a table, and proves what
they are for. `dafny verify dfyconfig.toml` checks all of it.

**Object files and the linker.** `Words`, `Longs`, `Arithmetic`: words as bytes, bytes as numbers, `getLongs`, byte swapping. `SymbolTable`, `LabelText`,
`SymbolReader`, `SymbolLoader`: the symbol table's encoders and both of its readers. `Relocation`, `RelocationPass`: relocation
entries, the patch of one site, the whole pass. `DebugData`, `DebugReaders`, `VmDebug`: debug data, its encoder and both of its
readers. `BinaryParser`: a file split into sections. `SymbolMerge`, `DebugMerge`, `LinkModel`, `LinkSymbols`, `LinkImage`,
`LinkOutcome`, `Linker`: what `Linker::link` combines, unit by unit, and exactly which units it can link. `ImageLayout`,
`LinkReferences`, `EndToEnd`, `LinkedDebug`: the linked image, where every reference in it points, and the same image and its
debug section loaded into a machine. `ObjectText`, `Instructions`: object text and instruction words, from the assembler to
the machine's fetch. `WireFormats`: what stands in an object file, byte by byte and number by number.

**The machine.** `Machine`: observable state, memory accessors, reversible changes. `Paging`, `Translations`: the six-level
walk, and the same walk in plain arithmetic. `Operations`: every modelled step as a function of the whole machine.
`OperationEffects`: what each step leaves, register by register. `VirtualMachine`: the class whose methods update the
fields in place, each held to the function of the same name. `Raises`: which operations interrupt, told before they run.
`History`, `HistorySteps`, `HistoryRuns`, `HistoryLimits`: undo and redo over whole runs, and exactly which steps they take back.
`VirtualMemory`, `Stack`: stores and loads through page tables that live in the same memory. `Protection`: rings, returning
from interrupts, conditions. `WideMultiply`: the 64 by 64 to 128 bit product.

**The assembler.** `Expressions`: validation and evaluation. `Sections`, `Expansion`, `CodeLayout`: byte sections, slot
reservation and pseudo-instruction expansion.

Conventions. A machine word, signed or unsigned in the source, is its bit pattern, a number below 2^64; sums wrap through
`Wrap`, and `Signed` is the two's complement reading. The bitwise `|` of the encoders is `BitOr`. A read outside a vector or
outside memory, undefined in the source, counts as a failure. The symbol hash is a function parameter. Associative
containers are visited in no particular order where the source visits them sorted, so what is proved holds for any order.
Inductive lemmas switch off automatic induction.

Where the code and `ISA.md` disagree the model follows the code:

- `ISA.md:332` gives a symbol entry a third word for the symbol's length; the code has none.
- `ISA.md:370` counts a relocation's site from the code section; the code counts it from the section it is in.
- `ISA.md:601` has `multu` multiply unsigned values; the code runs `mult`. `WideMultiply.MachineProduct` says when they agree.
- `ISA.md:261` has `$0` always zero; the machine lets it be written. `Expansion.MoveCopies` says when a move is one.
- `ISA.md:486-492` has interrupts switch to kernel mode; the code keeps the ring. `Protection.HandlerReturns` says what follows.
- `ISA.md:1345` has `ppop` jump whenever its register is not `$0`; the code jumps when the register's value is not zero.
- An access check of the machine lets through accesses that overrun memory's end; `Machine.GuardIsLoose` says exactly which.
- The stored offset of `a - (a - b)` is wrong: `Expressions.RecurrenceFails`, with the exact condition in
  `Expressions.DifferenceCounts`.
- Undo does not take back every step: `HistoryLimits.StepUndone` says exactly which.

## Model

| member | source | states |
|---|---|---|
| Longs.GetLongs | wasmc/include/util/Util.h:163-189 | packs bytes into words, plain characters with their sign spilling over the bytes above them, and an empty input into one zero word |
| Longs.ChunksBytes | wasmc/include/util/Util.h:163-189 | the words of a byte vector hold exactly those bytes, then zeros to the end of the last word |
| Longs.SwapEndianInvolution | wasmc/src/util/Util.cpp:186-188 | swapping twice is the identity, and a swap reverses the bytes |
| Arithmetic.ByteIs | wasmc/src/util/Util.cpp:186-188 | byte j of a word is its digit at 256^j |
| Arithmetic.OrBits | wasmc/include/util/Util.h:163-189 | the or the encoders use has exactly the bits that one of its sides has |
| WireFormats.LabelWords | wasmc/include/util/Util.h:163-189 | a label's words hold its bytes in order, lowest first, over zeros, where a byte above 127 turns those above it in its word into 255 |
| SymbolTable.HeaderFields | wasmc/src/wasm/SymbolTable.cpp:18-27 | the linker's and the assembler's headers are the same word, with id, type and length in disjoint fields |
| SymbolTable.EncodeSymbolTable | wasmc/src/wasm/Linker.cpp:423-437 | fails exactly on an empty label, and otherwise writes the entries' encodings in order |
| WireFormats.SymbolWords | wasmc/src/wasm/Linker.cpp:423-437 | an entry's first word is id times 2^32, type times 2^16 and word count, its second the address, then comes the label |
| LabelText.LabelRoundTrip | wasmc/src/wasm/BinaryParser.cpp:198-213 | a label is read back exactly when it has no NUL and no byte above 127 whose sign would spill over a different character |
| WireFormats.LabelRead | wasmc/src/wasm/BinaryParser.cpp:198-213 | of a word with r low zero bytes the reader takes the bytes from 2r on, up to a zero |
| WireFormats.LongLabelRefused | wasmc/src/wasm/BinaryParser.cpp:191-196 | a length field of 2^15 or more is an error |
| WireFormats.EntryReadable | wasmc/src/wasm/BinaryParser.cpp:189-217 | any other entry is read exactly if its words are there and its label hashes to its id |
| SymbolReader.ExtractSymbols | wasmc/src/wasm/BinaryParser.cpp:183-219 | the reader's three nested loops give the entries of the table specification and the map from label to first index |
| SymbolReader.TableRoundTrip | wasmc/src/wasm/BinaryParser.cpp:183-219 | decoding an encoded table gives it back exactly when every label is carried, short enough and hashes to its id, and the table is within the cap |
| SymbolReader.IndexMapExact | wasmc/src/wasm/BinaryParser.cpp:215-216 | for distinct labels the index map is the inverse of the table's labels |
| WireFormats.FirstKeeps | wasmc/src/wasm/BinaryParser.cpp:215-216 | where a label repeats, the map holds its first entry |
| SymbolLoader.LoadSymbols | wvm/src/VM.cpp:745-759 | the machine's byte-walking reader builds the map of first entries of the table specification |
| SymbolLoader.LoadedLabel | wvm/src/VM.cpp:294-304 | the machine reads a label back exactly when the toolchain does |
| SymbolLoader.LoadRoundTrip | wvm/src/VM.cpp:745-759 | the machine reads an encoded table as its entries in order exactly when the labels fit the format |
| WireFormats.FirstLoaded | wvm/src/VM.cpp:755-755 | where a label repeats, the machine keeps its first entry |
| WireFormats.LoadedIf | wvm/src/VM.cpp:747-753 | the machine stops at a label that is too long or reaches memory's end |
| Relocation.RelocationRoundTrip | wasmc/src/wasm/Types.cpp:11-17 | decoding encoded relocations gives them back without their interned labels |
| WireFormats.RelocationWords | wasmc/src/wasm/Types.cpp:11-17 | an entry is section, type and index in one word, then the addend, then the site |
| BinaryParser.GetRelocationData | wasmc/src/wasm/BinaryParser.cpp:264-269 | reads three words an entry and fails on a ragged end |
| Relocation.PatchSite | wasmc/src/wasm/Linker.cpp:274-317 | rewriting one or two words at any alignment is overwriting eight or four little-endian bytes at the site and nothing else; fails exactly off the section or on the invalid type |
| Relocation.PatchShows | wasmc/src/wasm/Linker.cpp:274-317 | the number at a patched site is the value for type 0, its remainder by 2^32 for type 2, its quotient by 2^32 for type 3 |
| WireFormats.EffectByType | wasmc/src/wasm/Linker.cpp:260-272 | symbol types 0 to 2 are skipped, 3 and 4 add the data and code offsets to address and addend, others throw |
| RelocationPass.ApplyRelocation | wasmc/src/wasm/Linker.cpp:243-319 | goes through exactly when every entry resolves, has a usable type and fits; then resolves each and applies its patch in list order |
| RelocationPass.PassBytes | wasmc/src/wasm/Linker.cpp:243-319 | after the pass a byte is what the last relocation covering it writes, else what it was |
| RelocationPass.PassIdempotent | wasmc/src/wasm/Linker.cpp:243-319 | running the pass over its own output changes nothing, even with overlapping sites |
| DebugData.EncodeDebugData | wasmc/src/wasm/Linker.cpp:370-421 | fails exactly on a string over 2^24 - 1 bytes, and otherwise writes the entries' words in order |
| DebugData.DebugRoundTrip | wasmc/src/wasm/BinaryParser.cpp:221-262 | decoding an encoded list never fails, and gives it back exactly when every file index and column fits three bytes |
| WireFormats.LocationBytes | wasmc/src/wasm/Linker.cpp:370-421 | a location's 24 bytes: type 3, then file, line, column, count, function and address at their places |
| WireFormats.NameBytes | wasmc/src/wasm/Linker.cpp:370-421 | a filename is type 1 and a function name type 2, with three bytes of length, the characters and zeros to a whole word |
| WireFormats.OtherDebugTypes | wasmc/src/wasm/BinaryParser.cpp:221-262 | any other type is refused |
| DebugReaders.GetDebugData | wasmc/src/wasm/BinaryParser.cpp:221-262 | the toolchain's word-walking reader decodes the byte specification |
| DebugReaders.VmStepIsSpan | wvm/src/VM.cpp:780-780 | the machine's alignment formula steps over exactly the words the encoder wrote |
| DebugReaders.VmEntry | wvm/src/VM.cpp:768-793 | one turn of the machine's reader decodes the same entry and boundary as the toolchain's |
| VmDebug.LoadDebugData | wvm/src/VM.cpp:761-797 | loads what the section decodes to, entry by entry, and fails on a bad entry or a missing string |
| VmDebug.LoadMeaning | wvm/src/VM.cpp:761-797 | loading succeeds exactly when every location that covers an instruction names an earlier file and function; then each address carries the texts of the first location covering it |
| Instructions.InstructionRoundTrip | wasmc/src/wasm/Assembler.cpp:250-311 | the binary parser and the machine each decode a compiled word to exactly its fields precisely for the opcodes they file under its format |
| WireFormats.InstructionWord | wasmc/src/wasm/Assembler.cpp:250-311 | an instruction's word is the sum of its fields, each at its power of two |
| WireFormats.OpcodeFormats | wasmc/src/wasm/Instructions.cpp:5-80 | the opcodes of each format, and those the machine leaves out |
| BinaryParser.Parser.Parse | wasmc/src/wasm/BinaryParser.cpp:67-110 | fails exactly when the file is no unit, and otherwise leaves its sections, symbols, index map, debug entries and relocations in the fields |
| BinaryParser.ThreeTerminators | wasmc/src/wasm/BinaryParser.cpp:67-110 | the metadata strings are accepted exactly when three bytes are zero |
| SymbolMerge.EraseEnd | wasmc/src/wasm/Linker.cpp:126-137 | drops a subunit's `.end` from table, index map and relocations |
| SymbolMerge.DropPointing | wasmc/src/wasm/Linker.cpp:126-137 | after the drop every index-map entry still points at the entry with its label |
| SymbolMerge.RelocationKeepsLabel | wasmc/src/wasm/Linker.cpp:133-135 | after the drop a relocation names the label it named exactly when that was not `.end` |
| SymbolMerge.RebaseSymbols | wasmc/src/wasm/Linker.cpp:143-151 | every entry the map points at is moved by its section's running length, in any visiting order |
| WireFormats.RebasedByType | wasmc/src/wasm/Linker.cpp:143-151 | type 4 moves by the code before it, type 3 by the data, others not at all |
| WireFormats.WinnerByType | wasmc/src/wasm/Linker.cpp:178-187 | an entry in the table gives way exactly if its type is unknown and the other's is not |
| SymbolMerge.DetectSymbolCollisions | wasmc/src/wasm/Linker.cpp:345-368 | throws exactly when a label other than `.end` is defined on both sides |
| SymbolMerge.MergeSymbols | wasmc/src/wasm/Linker.cpp:174-188 | each label is appended or settled against the entry already there, keeping earlier places, for any visiting order |
| DebugMerge.CountStringTypes | wasmc/src/wasm/Linker.cpp:335-343 | counts the string entries |
| DebugMerge.MergeDebug | wasmc/src/wasm/Linker.cpp:153-210 | a subunit's moved strings go in after the combined strings and its moved locations at the end |
| DebugMerge.SplicedShape | wasmc/src/wasm/Linker.cpp:153-210 | a combined list with its strings first stays so, with old and new parts in order |
| LinkModel.BasesAreLengths | wasmc/src/wasm/Linker.cpp:190-196 | the running totals are the lengths of what has been concatenated |
| LinkModel.ParsedWhole | wasmc/src/wasm/BinaryParser.cpp:67-110 | a file whose offsets are whole words parses to sections that lie between them, with their lengths in bytes |
| LinkModel.DebugIsSorted | wasmc/src/wasm/Linker.cpp:203-209 | after any number of units the list is all strings in unit order, then all locations in unit order |
| LinkModel.DebugMeaning | wasmc/src/wasm/Linker.cpp:153-160 | every location of every unit still names its unit's own file and function entries, its position, and the same instruction in the combined code |
| LinkSymbols.GatheredStep | wasmc/src/wasm/Linker.cpp:174-188 | over any number of subunits, repeated labels or not, the combined table holds rebased entries of the units and nothing else, has one for every label but a subunit's `.end`, and keeps the main unit's places |
| LinkSymbols.MergedStep | wasmc/src/wasm/Linker.cpp:174-188 | for distinct labels one more subunit keeps the definitions: table and map agree, each defined label has exactly its rebased definition, nothing is defined that no unit defines, no label is defined twice |
| LinkSymbols.CollisionMeans | wasmc/src/wasm/Linker.cpp:139-139 | a subunit is refused exactly when it defines a label an earlier unit defines |
| Linker.MergeUnit | wasmc/src/wasm/Linker.cpp:110-210 | one turn of the loop keeps the combined code, data, totals, debug list, relocations and symbols in step with the units so far; a collision means two definitions of one label, any other failure a relocation without one |
| LinkOutcome.ClosableExactly | wasmc/src/wasm/Linker.cpp:212-319 | the closing steps go through exactly when no unit has an empty label and every unit's every reference has a label that, if some unit gives it a type, is code or data and has its site in the section; strings of parsed units always fit |
| LinkOutcome.KindExactly | wasmc/src/wasm/Linker.cpp:260-272 | the type a reference meets is the one the defining unit gave its label, or the main unit gave `.end`, and unknown exactly when there is none |
| Linker.Close | wasmc/src/wasm/Linker.cpp:212-238 | adds `.end`, sizes and encodes the sections, patches, and writes the header and the image; fails exactly when one of these cannot |
| Linker.Linker.Link | wasmc/src/wasm/Linker.cpp:83-241 | success leaves the image of the combined units and returns it as text, failure changes nothing; units with distinct labels link exactly when every file parses, no label is defined twice or empty, and every reference is good; a collision means a label defined twice |
| LinkImage.FinalTableSize | wasmc/src/wasm/Linker.cpp:218-221 | the table's size does not depend on the address `.end` is given |
| WireFormats.EndLabel | wasmc/src/wasm/Linker.cpp:212-215 | a table without `.end` gets those four characters as an entry of type 0 |
| ImageLayout.ImageSections | wasmc/src/wasm/Linker.cpp:223-238 | slicing the image at its own header offsets gives back the six sections that were concatenated |
| ImageLayout.EndIsRelocationStart | wasmc/src/wasm/Linker.cpp:218-227 | `.end` is the start of the relocation section exactly when the main unit's metadata length is whole words |
| ImageLayout.ImageRoundTrip | wasmc/src/wasm/BinaryParser.cpp:67-110 | the parser reads the image back as the combined unit, patched and resolved, exactly when the format can represent that unit |
| ImageLayout.ImageSurvives | wasmc/src/wasm/BinaryParser.cpp:67-110 | the same in numbers: at most 1,000,000 symbols, labels of at most 262,136 bytes that survive and hash to their ids, file indices, columns and string lengths below 2^24, known opcodes, three terminators |
| LinkReferences.LinkedIsLinkable | wasmc/src/wasm/Linker.cpp:83-241 | whatever a successful link of units with distinct labels has combined meets the conditions of the reference theorems below |
| LinkReferences.ReferenceResolves | wasmc/src/wasm/Linker.cpp:248-260 | through renumbering, merging and the pass, each relocation still means its unit's label |
| LinkReferences.ReferenceValue | wasmc/src/wasm/Linker.cpp:260-264 | the value it patches is the section's final offset, plus the earlier units' lengths, plus the local address, plus the addend |
| LinkReferences.UndefinedIsSkipped | wasmc/src/wasm/Linker.cpp:265-269 | a relocation on a label no unit defines is left alone |
| LinkReferences.EndReference | wasmc/src/wasm/Linker.cpp:248-269 | the main unit's own relocation on `.end`, which keeps its label, is left alone exactly when the main unit leaves `.end` without a type |
| LinkReferences.SecondPass | wasmc/src/wasm/Linker.cpp:243-319 | relocating a linked image once more changes neither its relocations nor its sections |
| LinkReferences.ReferencesPointHome | wasmc/src/wasm/Linker.cpp:83-319 | in the linked image every such site, moved with its section, holds that value, or its lower or upper half, unless a later relocation overlaps it |
| LinkReferences.ElsewhereIsConcatenation | wasmc/src/wasm/Linker.cpp:195-196 | every byte of code and data outside the sites is the plain concatenation of the units |
| EndToEnd.LoadedHolds | wvm/src/VM.cpp:680-703 | a machine that loads the printed image holds it at the start of its memory |
| EndToEnd.HomeHoldsDefinition | wasmc/src/wasm/Linker.cpp:83-319 | in a machine that has loaded the image, a label's final address holds the byte the label named in its own unit |
| EndToEnd.ReferenceReachesDefinition | wasmc/src/wasm/Linker.cpp:83-319 | there, the word at a full-width reference is the address of the byte its label named |
| EndToEnd.ReferenceInMemory | wasmc/src/wasm/Linker.cpp:83-319 | of any width and addend, what the machine's accessors read at a reference is the final address plus the addend, or that modulo 2^32, or divided by 2^32 |
| EndToEnd.TickExecutesWord | wvm/src/VM.cpp:573-610 | a machine whose memory starts with given words executes at each word's address exactly what that word decodes to |
| LinkedDebug.LinkedDebugLoads | wasmc/src/wasm/Linker.cpp:153-210 | if every unit's debug section would load by itself, the linked one loads |
| LinkedDebug.DebugInMemory | wvm/src/VM.cpp:705-725 | between its header's debug and relocation offsets the machine decodes the combined list, exactly when the three-byte fields can hold it |
| LinkedDebug.LinkedCover | wasmc/src/wasm/Linker.cpp:153-160 | a unit's location that describes its instruction covers that instruction's address in the image |
| LinkedDebug.LinkedLines | wvm/src/VM.cpp:761-797 | in the loaded machine an address carries the first location that covers it, with the file and function texts that location named in its own unit |
| ObjectText.Stringify | wasmc/src/wasm/Assembler.cpp:201-213 | prints the words as lines of sixteen digits, low byte first |
| ObjectText.TextLayout | wasmc/src/wasm/Assembler.cpp:201-213 | every sixteen digits are followed by a newline, but the last |
| WireFormats.LineDigits | wasmc/src/wasm/Assembler.cpp:201-213 | byte j of a word is printed as two lower-case digits at places 2j and 2j + 1 |
| WireFormats.DigitValues | wasmc/src/util/Util.cpp:25-31 | the digits and their values |
| WireFormats.DigitLine | wasmc/src/util/Util.cpp:25-31 | a line of digits is its number if that fits 64 bits, and an error if not |
| WireFormats.SpacedLine | wasmc/src/util/Util.cpp:25-31 | a space in front changes nothing |
| WireFormats.PrefixedLine | wasmc/src/util/Util.cpp:25-31 | nor does "0x" or "0X" |
| WireFormats.SignedLine | wasmc/src/util/Util.cpp:25-31 | a plus changes nothing and a minus negates modulo 2^64 |
| ObjectText.ReadObject | wasmc/src/wasm/BinaryParser.cpp:12-24 | reads lines, parses each as hexadecimal as `stoul` does, spaces, sign and prefix included, and swaps it; fails on a bad line |
| ObjectText.TextRoundTrip | wasmc/src/wasm/Assembler.cpp:201-213 | printing words and reading them back is the identity |
| ObjectText.LoadLines | wvm/src/VM.cpp:688-699 | fails exactly on a line that `strtoul` does not use up as sixteen characters or that lies past memory; otherwise memory holds the lines' bytes over zeros |
| ObjectText.LoadPrinted | wvm/src/VM.cpp:688-699 | loading printed words puts their bytes in memory in order |
| WireFormats.LineInMemory | wvm/src/VM.cpp:688-699 | a line of sixteen digits puts the byte of each pair of digits in memory, from left to right |
| ObjectText.FetchInstruction | wvm/src/VM.cpp:586-589 | the big-endian read and the swap give the word whose bytes are in memory |
| ObjectText.FetchesWhatWasAssembled | wvm/src/Operations.cpp:33-63 | after printing and loading, what is fetched is the assembled word, and it decodes to the fields given to the assembler |
| Machine.GuardIsLoose | wvm/src/VM.cpp:163-292 | the accessors' check admits every access inside memory and, beyond those, exactly the ones starting within a width of its end |
| Arithmetic.GetReads | wvm/src/VM.cpp:224-284 | an accessor reads one, two, four or eight bytes as the sum of byte times 256 to its place |
| Arithmetic.PutWrites | wvm/src/VM.cpp:163-222 | and writes the value's digits to base 256, lowest first, and nothing else |
| Machine.CapturedIsUndone | wvm/src/Changes.cpp:8-187 | undoing a change after applying it gives the state back exactly when the change had captured it |
| Paging.WalkSixLevels | wvm/src/VM.cpp:82-141 | the six unrolled levels are a recursive radix-256 lookup |
| Translations.TranslateFollows | wvm/src/VM.cpp:60-161 | the walk in arithmetic: each table word is at the last one without its low eight bits plus eight times the address's next byte, the highest first; an even word faults, a word past memory throws, the sixth gives the page without its low sixteen bits plus the address's |
| Translations.SixTables | wvm/src/Paging.cpp:7-41 | written out for the six table words of one address |
| Translations.TranslateIs | wvm/src/VM.cpp:60-161 | every translation is one of these; without paging it is the address, and without a root table a fault |
| Translations.WritableIs | wvm/src/VM.cpp:612-614 | a page may be written when paging is off or bit 1 of its word is set |
| Translations.WalkedNotes | wvm/src/VM.cpp:60-161 | a walk notes the address and the six flags of the page's word, bits 0 to 5 |
| Paging.TranslationDepends | wvm/src/VM.cpp:60-161 | a translation depends on nothing but the paging registers and at most six words of memory |
| Paging.KeepsOffset | wvm/src/Paging.cpp:7-41 | a translation keeps the low 16 bits |
| Paging.SamePage | wvm/src/Paging.cpp:7-41 | two addresses on one page share a fate and translate to addresses with the same difference |
| VirtualMachine.VM.TranslateAddress | wvm/src/VM.cpp:60-161 | returns the specified translation and leaves lastVirtual and lastMeta as specified |
| VirtualMachine.VM.GetMemory | wvm/src/VM.cpp:224-284 | or-ing shifted bytes gives the little-endian value of the bytes there |
| VirtualMachine.VM.SetMemory | wvm/src/VM.cpp:163-222 | writes exactly the value's low bytes at the address |
| VirtualMachine.VM.FinishChange | wvm/src/VM.cpp:807-816 | does nothing without history or changes; otherwise keeps the groups before the pointer, makes the buffer the last group, and leaves the pointer at the end and the buffer empty |
| VirtualMachine.VM.Undo | wvm/src/VM.cpp:552-561 | takes back the last group's changes, last first, and reports an empty history |
| VirtualMachine.VM.Redo | wvm/src/VM.cpp:563-571 | applies the next group's changes in order, and reports an empty future |
| VirtualMachine.VM.Interrupt | wvm/src/VM.cpp:395-414 | nothing if switched off; otherwise paging is pushed and off, memory, ring and tables are as they were, and the machine is at the handler's address with its position and ring in `$e0` and `$e1`, or halted in place without one; throws exactly when the handler's word is outside memory |
| VirtualMachine.VM.Store | wvm/src/Operations.cpp:746-757 | memory is the old memory with the value at the translated address if the page is present and writable and the bytes exist, and is untouched otherwise |
| VirtualMachine.VM.MemSet | wvm/src/Operations.cpp:932-950 | the byte loop is the specified fill |
| VirtualMachine.VM.Execute | wvm/src/Operations.cpp:33-63 | every operation leaves the whole machine as its function says, exceptions included |
| OperationEffects.ComputeLeaves | wvm/src/Operations.cpp:296-299 | the destination gets the function of the two sources in order, and `$st` the result's status |
| OperationEffects.SetLeaves | wvm/src/Operations.cpp:1035-1038 | the register gets the immediate |
| OperationEffects.CompareLeaves | wvm/src/Operations.cpp:605-608 | `$st` gets the status of the difference: 1 for zero, 2 for negative, else 0 |
| OperationEffects.MultiplyLeaves | wvm/src/Operations.cpp:306-314 | `$lo` and `$hi` get the halves of the signed product |
| OperationEffects.PrintLeaves | wvm/src/Operations.cpp:1198-1201 | the register's low byte is printed |
| OperationEffects.HaltLeaves | wvm/src/Operations.cpp:1188-1191 | a halt stops the machine where it stands |
| OperationEffects.InterruptVectors | wvm/src/VM.cpp:395-414 | interrupt t takes word t of the table: paging pushed and off, position and ring in registers 122 and 123, or a halt; 2 and 7 only with hardware interrupts on, which they switch off |
| OperationEffects.IntVectors | wvm/src/Operations.cpp:1114-1116 | a program raises interrupts 1 to 7; other numbers throw |
| OperationEffects.LoadLeaves | wvm/src/Operations.cpp:735-744 | the register gets the number at the translated address; a missing page is interrupt 4 with the address in `$e2` |
| OperationEffects.StoreLeaves | wvm/src/Operations.cpp:746-757 | the bytes there get the register's digits; a page that may not be written is interrupt 6 with the physical address in `$e2` |
| OperationEffects.CopyLeaves | wvm/src/Operations.cpp:716-733 | the second register's bytes become the first's, with the same interrupts |
| OperationEffects.IndirectLeaves | wvm/src/Operations.cpp:1088-1112 | the bytes at the immediate go to the register's own address |
| OperationEffects.MemSetLeaves | wvm/src/Operations.cpp:932-950 | without paging, count, value and start come from the three registers in order |
| OperationEffects.PushLeaves | wvm/src/Operations.cpp:828-859 | `$sp` moves down by the amount, then that many bytes of the register are written; amounts other than 1, 2, 4 and 8 throw |
| OperationEffects.PopLeaves | wvm/src/Operations.cpp:861-887 | the register gets the number at `$sp`, then `$sp` moves up |
| OperationEffects.TranslateLeaves | wvm/src/Operations.cpp:995-1009 | the register gets the physical address |
| OperationEffects.JumpLeaves | wvm/src/Operations.cpp:660-665 | the machine goes to the address if the condition holds of `$st`'s two bits, without a condition always, leaving the return address in `$rt` if it links |
| OperationEffects.JumpIfLeaves | wvm/src/Operations.cpp:667-672 | the same if a register is not zero |
| OperationEffects.JumpRegLeaves | wvm/src/Operations.cpp:674-685 | to a register's address; through `$e0` hardware interrupts come on, or outside ring zero interrupt 3 comes first |
| OperationEffects.JumpRegIfLeaves | wvm/src/Operations.cpp:687-695 | the same if a register is not zero |
| OperationEffects.JumpRegLinkLeaves | wvm/src/Operations.cpp:697-702 | to the register's address from before the link |
| OperationEffects.JumpRegLinkIfLeaves | wvm/src/Operations.cpp:704-714 | to the register's address translated, if another is not zero |
| OperationEffects.PrivilegedBarred | wvm/src/Operations.cpp:1118-1132 | outside ring zero a privileged operation takes interrupt 3 twice |
| OperationEffects.RingLeaves | wvm/src/Operations.cpp:1158-1171 | a ring from the present one to 3 is entered, any other takes interrupt 3 |
| OperationEffects.PagingLeaves | wvm/src/Operations.cpp:1473-1493 | paging is set as asked |
| OperationEffects.TableLeaves | wvm/src/Operations.cpp:1118-1132 | the interrupt table is the immediate translated |
| OperationEffects.SetTableLeaves | wvm/src/Operations.cpp:1495-1513 | the page table register takes the first register, and the machine goes to the second's address unless it is zero |
| OperationEffects.PagePushLeaves | wvm/src/Operations.cpp:1520-1526 | paging and page table are pushed |
| OperationEffects.PagePopLeaves | wvm/src/Operations.cpp:1528-1551 | they come back, if there are any, and the machine goes to the register's address unless it is zero |
| VirtualMachine.VM.Tick | wvm/src/VM.cpp:573-610 | fetches through the page tables, decodes by the decoder given and executes; halts where the program counter does not translate |
| OperationEffects.TickLeaves | wvm/src/VM.cpp:573-610 | the number at the translated program counter is executed as it decodes; a missing page halts; a fetch past memory or an unknown word throws |
| History.TrackRecord | wvm/src/VM.cpp:807-816 | a recorded change keeps the history exact, adds one committed state after the pointer, and drops exactly the redo tail |
| History.UndosThenRedos | wvm/src/VM.cpp:552-571 | from any point of a tracked run, m undos and j redos reach the state committed j - m groups away |
| HistoryRuns.TrackExecute | wvm/include/VM.h:178-193 | a clean operation keeps the history exact: what it commits is its own results, after the state at the pointer |
| HistoryRuns.TrackTick | wvm/src/VM.cpp:573-610 | so does a tick whose operation is clean, and any tick that halts or throws |
| HistoryRuns.RunHistory | wvm/src/VM.cpp:552-571 | so does every clean run of operations, ticks, undos and redos, with the committed states given as a function of the run |
| HistoryRuns.RunIsReversible | wvm/src/VM.cpp:552-571 | from a fresh machine, after any such run, any undos and redos within the stack land on the states the run committed, the first of them the starting state |
| HistoryRuns.RunReturns | wvm/src/VM.cpp:552-571 | the state at any earlier point of the run is reached again by undos and redos that bring the pointer back to it, unless a later step was taken from further back |
| HistoryRuns.UndoReturns | wvm/src/VM.cpp:552-571 | after any clean steps, undoing what the last of them committed gives back the state before them |
| HistoryLimits.StepUndone | wvm/src/VM.cpp:552-561 | undoing all that an operation committed gives back the state before it exactly when its guards say so beforehand: a link finds its return address in `$rt`, no interrupt is raised out of paging, nothing halts a halted machine |
| HistoryLimits.CleanExactly | wvm/src/VM.cpp:552-571 | an operation keeps the history exact if and only if it is clean: reversible, and not refused into halting twice |
| HistoryLimits.LinkUndone | wvm/src/VM.cpp:319-346 | a linking jump is undone exactly when `$rt` already held its return address |
| HistoryLimits.RaiseUndone | wvm/src/VM.cpp:395-414 | an interrupt of any type is undone exactly when paging was off and, where it halts, the machine was running |
| VirtualMemory.StoreEffect | wvm/src/Operations.cpp:746-757 | a store changes exactly the bytes at the translated address of a present, writable page, or changes no memory and interrupts or throws |
| VirtualMemory.LoadEffect | wvm/src/Operations.cpp:735-744 | a load goes through exactly when the page is present and the bytes exist, and changes no memory |
| VirtualMemory.ReadBack | wvm/src/Operations.cpp:735-757 | a store that misses its own walk's table words is read back at the same virtual address |
| VirtualMemory.ReadElsewhere | wvm/src/Operations.cpp:735-757 | a load whose table words and data a store misses gives what it gave before |
| VirtualMemory.CopyEffect | wvm/src/Operations.cpp:716-733 | a copy makes the target's bytes the source's and changes nothing else, or interrupts or throws |
| VirtualMemory.IndirectEffect | wvm/src/Operations.cpp:1088-1112 | an indirect load writes to an untranslated address whatever its page allows, exactly when source and raw target exist |
| VirtualMemory.FillEffect | wvm/src/Operations.cpp:932-950 | a memset clear of the tables writes byte by byte and, stopped, has written exactly the prefix before the first byte it cannot write |
| VirtualMemory.FilledByte | wvm/src/Operations.cpp:932-950 | a byte after the fill is the value if some filled byte landed on it, else what it was |
| Stack.StackDiscipline | wvm/src/Operations.cpp:802-887 | any sized pushes, popped in reverse, load the low bytes of the pushed values last first, restore `$sp`, and leave other memory alone |
| Stack.FaultingPush | wvm/src/Operations.cpp:828-859 | a push to a missing or unwritable page has already moved `$sp`, and changes no memory |
| Stack.RoomWithoutPaging | wvm/src/Operations.cpp:802-887 | without paging the only condition is a stack range inside memory |
| Protection.RunConfined | wvm/src/Operations.cpp:1118-1170 | over any program the ring never drops, and outside ring zero the page table and interrupt table registers never change |
| Protection.TicksConfined | wvm/src/VM.cpp:573-610 | the same over any number of ticks of a program in memory, which may rewrite itself |
| Protection.HandlerReturns | wvm/src/Operations.cpp:1528-1551 | a handler leaving through ppop and `$e0` gives back paging, page table and position exactly in ring zero and away from address zero |
| Protection.CompareThenCheck | wvm/src/VM.cpp:368-389 | after a comparison exactly one condition holds, zero is equality, and negative is the signed order exactly when the difference does not overflow |
| WideMultiply.SumsFit | wvm/include/mult.h:71-85 | neither the middle sum nor the high sum wraps |
| WideMultiply.Emulate64x64to128 | wvm/include/mult.h:48-89 | high times 2^64 plus low is the product |
| WideMultiply.MachineProduct | wvm/src/Operations.cpp:306-319 | the machine's low word is the exact one; its high word is the unsigned product's exactly when the sign correction vanishes |
| Expressions.FindLabels | wasmc/src/wasm/Expression.cpp:20-51 | adds exactly the expression's labels |
| Expressions.DependsOnLabels | wasmc/src/wasm/Expression.cpp:241-302 | a value depends on no label but those |
| Expressions.LeafValues | wasmc/src/wasm/Expression.cpp:273-302 | the values of numbers, of the position and of labels, excluded, known, unknown and ignored |
| Expressions.RingValues | wasmc/src/wasm/Expression.cpp:247-255 | sums, differences and products modulo 2^64, and which failure is reported |
| Expressions.QuotientValues | wasmc/src/wasm/Expression.cpp:256-271 | quotient times divisor plus remainder is the dividend, with the remainder below the divisor; fails exactly for a failing or zero divisor, then a failing dividend |
| Expressions.ValidForms | wasmc/src/wasm/Expression.cpp:90-172 | exactly which expressions get which validation, and which label |
| Expressions.ValidationIsSound | wasmc/src/wasm/Expression.cpp:90-172 | shifting every label moves a valid expression's value by the degree its validation stands for, none for Pure and DoubleLabelDifference, failures included |
| Expressions.SumAddend | wasmc/src/wasm/Assembler.cpp:171-198 | for a label or a label sum, the label's offset plus the stored offset is the value |
| Expressions.DifferenceAddend | wasmc/src/wasm/Assembler.cpp:171-198 | for a label difference it is exactly when excluding the label changes nothing on the right |
| Expressions.CoefficientCounts | wasmc/src/wasm/Expression.cpp:241-302 | excluding a label takes its offset out of the value as often as it counts in sums, differences and products with a factor free of it, and no failure comes or goes |
| Expressions.DifferenceCounts | wasmc/src/wasm/Assembler.cpp:171-198 | so a label difference's stored offset is right exactly when the right side fails anyway or the label's count there times its offset vanishes modulo 2^64 |
| Expressions.DifferenceWithoutRecurrence | wasmc/src/wasm/Assembler.cpp:171-198 | in particular when the label does not recur there |
| Expressions.DifferenceOfDifference | wasmc/src/wasm/Expression.cpp:241-302 | with a difference of two labels on the right, exactly when the label is neither or both of them or at offset zero |
| Expressions.RecurrenceFails | wasmc/src/wasm/Expression.cpp:241-302 | a concrete expression whose stored offset is wrong |
| Sections.Section.AppendAll | wasmc/include/wasm/Section.h:58-64 | appends the words' bytes and advances the counter by them |
| Sections.Section.Insert | wasmc/include/wasm/Section.h:73-79 | overwrites bytes in place, or refuses to reach past the end |
| Sections.Section.AlignUp | wasmc/src/wasm/Section.cpp:60-68 | pads with zeros to the next multiple |
| Sections.NextMultiple | wasmc/src/wasm/Section.cpp:60-68 | that is the least multiple not below |
| Sections.Combine | wasmc/src/wasm/Section.cpp:79-101 | goes through exactly when every section is whole words, and keeps their bytes in order |
| Expansion.ExpandedSize | wasmc/src/wasm/Nodes.cpp:1190-1224 | reserves exactly as many slots as the expansion fills |
| Expansion.ExpandStands | wasmc/src/wasm/Assembler.cpp:618-646 | an ordinary instruction expands to its own word; an io name to a set of `$a0` to its id and an io; a move to an or with `$0`; prints to sets of `$m7` and prints of it, as the machine decodes them |
| Expansion.KnownNames | wasmc/src/wasm/Assembler.cpp:765-787 | the io names and their ids |
| Expansion.StringPrintPrints | wasmc/src/wasm/Assembler.cpp:789-816 | run from any machine state, a string print's words print exactly the string, touch nothing of the machine but `$m7` and the program counter, and commit one group each to its history |
| Expansion.CharPrintPrints | wasmc/src/wasm/Assembler.cpp:746-763 | a character print's two words print its character and touch nothing else either |
| Expansion.MoveCopies | wasmc/src/wasm/Assembler.cpp:737-744 | a move copies its register exactly when `$0` holds no bit the register lacks, sets the flags by the copy, and into `$st` leaves the flags |
| CodeLayout.Reserve | wasmc/src/wasm/Assembler.cpp:154-166 | reserves zeroed slots for every node and maps each offset to its node |
| CodeLayout.AddStringPrint | wasmc/src/wasm/Assembler.cpp:789-816 | writes the string print's words over its slots |
| CodeLayout.ExpandNode | wasmc/src/wasm/Assembler.cpp:618-646 | writes exactly the node's own slots, or refuses an unknown io name |
| CodeLayout.ExpandCode | wasmc/src/wasm/Assembler.cpp:618-646 | no insert is out of range, and the section becomes the nodes' expansions one after the other; fails exactly on an unknown io name |
| CodeLayout.LaidAll | wasmc/src/wasm/Assembler.cpp:618-646 | at each node's start the finished section holds the words that stand for it |
| CodeLayout.PlainLaid | wasmc/src/wasm/Assembler.cpp:641-641 | so an ordinary instruction's own word is there, and decodes to the instruction it was compiled from |

## Left out

- Linker.Linker.Link: the totals of symbol and relocation bytes, which the source keeps and never uses; the kind of an error other than a collision; and, where a unit repeats a label or a relocation of the main unit points past its table, as no assembler writes them, which inputs fail.
- BinaryParser.Parser.Parse: the program's name, version, author and ORCID, beyond the three terminators it insists on.
- SymbolLoader.LoadSymbols: entries with a negative length field, on which the source's loop can go backwards or stand still; the model stops there.
- VmDebug.LoadDebugData: a second load into a machine that still holds the strings of the first.
- VirtualMachine.VM.GetMemory: accesses the guard lets through past the end of memory count as throws, as undefined behaviour has no other meaning.
- VirtualMachine.VM.Undo: what is left when a group's memory no longer exists, which a history of one machine never has.
- VirtualMachine.VM.Execute: decoding of opcode and function numbers to operations, except those string prints and moves need; the arithmetic and logic operations are one operation over an arbitrary function; io, timers, keyboard, sleeping, resting, `eval`, the printing formats other than characters, and reading ring, paging or memory size into a register are not modelled.
- VirtualMachine.VM.Tick: the cycle count and breakpoints.
- HistoryRuns.RunHistory: strict mode.
- Expressions.DifferenceCounts: right sides where the label occurs on both sides of a product, or in a quotient or remainder.
- LinkReferences.ReferencesPointHome: for units whose labels are distinct and whose header offsets are whole words, as the assembler writes them.
- Paging.WalkSixLevels: the diagnostic dump of a missing last-level entry.
- Expansion.ExpandedSize: `jeq`, labels and directives between instructions, and the flag bits an expansion inherits.
- Sections.Combine: `applyValues` and growing capacities.
- Lexing, parsing and the assembler's metadata, relocation map and debug runs: not needed for these results.
- Threads, locks, callbacks, networking, terminal interface and file access: presentation and foreign calls.
- The SHA-256 symbol hash: any function from labels to 32-bit ids.
