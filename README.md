# jspearmint core, modelled in Dafny

jspearmint reads SPIR-V modules and disassembles them to text. This project models and proves properties of the path from the octets of a module to the lines of its disassembly:

- **Binary decoder** (`parser.dfy`, `parser_api.dfy`, `parser_properties.dfy`). The parser detects the byte order from the magic number (section 3.1 of the Khronos SPIR-V specification). It reads the five-word header, then splits each instruction word into word count and opcode (section 2.3) and reads the operands. The stream reader is a `Reader` class with a cursor. The parser is a `Parser` class, and its methods are proved against pure specification functions.
- **Literal strings** (`strings.dfy`, `utf8.dfy`, `text.dfy`). Octets are unpacked four to a word, low octet first, up to the first NUL (section 2.2.1 of the SPIR-V specification). They are then decoded as UTF-8 and trimmed.
- **Pre-scan analyses** (`identifiers.dfy`, `types.dfy`, `instructions.dfy`). These build the id-to-name and name-to-id tables, the id-to-type table, and the opcode registry.
- **Instruction and enumeration tables** (`registry.dfy`, `enumerations.dfy`, `enum_generation.dfy`). The generated instruction enumeration covers the instructions the formatters and analyses use. Six value enumerations have their `ofInteger`. The generator's pure helpers compute the minimum operand count, the quantifier and the constant name.
- **Disassembly engine**:
  - `op_disassemblers.dfy`: the formatter table with its raw fallback.
  - `formatters.dfy`: the opcode and operand-count guard and the per-opcode formatters.
  - `context.dfy`, `formatting.dfy`: rendering of ids, literals and strings.
  - `columns.dfy`, `disassembler.dfy`: the line layout, the banner, and a `Writer` class that collects lines until the first failure.
- `formatter_examples.dfy` restates the formatter examples of the test suite as lemmas.

Exceptions become a `Failure` datatype (`failures.dfy`) returned in a `Result`. A failure during disassembly leaves the lines written before it, plus the unfinished line.

Some functions have no row of their own, because the row of a partner states their meaning: `OpDisassemblers.CollectToMap` (`OpDisassemblers.CollectToMapOk`), `OpDisassemblers.Create` (`OpDisassemblers.CreateOk`), `Identifiers.IdentifiersOf` (`Identifiers.Of`), `Types.TypesOf` (`Types.Of`), `Disassembler.Output` (`Disassembler.Disassemble`, `Disassembler.OutputShape`), `Disassembler.InstructionLine` (`Disassembler.DisassembleInstruction`), `Columns.RawLine` (`Columns.RawColumns`), `Columns.Assignment` (`Columns.AssignmentShape`) and `Columns.Collect` (`Columns.CollectMeaning`).

## Model

| member | source | states |
|---|---|---|
| Parser.WordRoundTrip | com.io7m.jspearmint.parser.vanilla/src/main/java/com/io7m/jspearmint/parser/vanilla/internal/SMParser.java:146-156 | a word read back from its four octets, in either byte order, is that word |
| Parser.Endianness | com.io7m.jspearmint.parser.vanilla/src/main/java/com/io7m/jspearmint/parser/vanilla/internal/SMParser.java:116-144 | the magic number selects big-endian for 07 23 02 03 and little-endian for 03 02 23 07 (both directions); any other four octets are an unrecognized magic number; fewer than four octets are an end of stream |
| Parser.ParsePrelude | com.io7m.jspearmint.parser.vanilla/src/main/java/com/io7m/jspearmint/parser/vanilla/internal/SMParser.java:83-114 | succeeds exactly when the magic number is recognised and twenty octets are there; version, generator magic, bound and reserved (the schema) are the next four words in that order, each read in the detected byte order |
| Parser.WordCountOf | com.io7m.jspearmint.parser.vanilla/src/main/java/com/io7m/jspearmint/parser/vanilla/internal/SMParser.java:210-211 | the word count is below 2^16 |
| Parser.OpCodeOf | com.io7m.jspearmint.parser.vanilla/src/main/java/com/io7m/jspearmint/parser/vanilla/internal/SMParser.java:212-213 | the opcode is below 2^16 |
| Parser.HeaderWord | com.io7m.jspearmint.parser.vanilla/src/main/java/com/io7m/jspearmint/parser/vanilla/internal/SMParser.java:210-213 | a header word is word count · 65536 + opcode, and any such pair of 16-bit halves is split back into itself |
| Parser.ParseNext | com.io7m.jspearmint.parser.vanilla/src/main/java/com/io7m/jspearmint/parser/vanilla/internal/SMParser.java:198-243 | fewer than four octets left is the clean end; otherwise wordCount and opCode come from the header word, exactly max(0, wordCount − 1) operands follow, the next instruction starts right after them, no byte offset is set; a missing operand is an end-of-stream error at the offset where the short read happened |
| Parser.Reader.ReadBytes | com.io7m.jspearmint.parser.vanilla/src/main/java/com/io7m/jspearmint/parser/vanilla/internal/SMParser.java:120-121 | n octets from the cursor, which moves past them; at the end of the stream nothing is read and the cursor stays |
| Parser.Reader.ReadU32BE | com.io7m.jspearmint.parser.vanilla/src/main/java/com/io7m/jspearmint/parser/vanilla/internal/SMParser.java:152-153 | the big-endian word at the cursor and a cursor four octets on, or nothing with the cursor unmoved |
| Parser.Reader.ReadU32LE | com.io7m.jspearmint.parser.vanilla/src/main/java/com/io7m/jspearmint/parser/vanilla/internal/SMParser.java:155 | the little-endian word at the cursor and a cursor four octets on, or nothing with the cursor unmoved |
| Parser.Parser.Header | com.io7m.jspearmint.parser.vanilla/src/main/java/com/io7m/jspearmint/parser/vanilla/internal/SMParser.java:168-196 | the header reports the version, generator magic, bound and reserved words the parser was made with |
| Parser.Parser.Create | com.io7m.jspearmint.parser.vanilla/src/main/java/com/io7m/jspearmint/parser/vanilla/internal/SMParser.java:83-114 | creating a parser gives ParsePrelude's result: the byte order, the header, versionMajor and versionMinor as the header's bit fields, and the reader at the first instruction; a failure is ParsePrelude's error |
| Parser.Parser.DetermineEndianness | com.io7m.jspearmint.parser.vanilla/src/main/java/com/io7m/jspearmint/parser/vanilla/internal/SMParser.java:116-144 | the result is Endianness of the stream at the cursor; the cursor moves past the magic number unless the stream is too short |
| Parser.Parser.ReadWord | com.io7m.jspearmint.parser.vanilla/src/main/java/com/io7m/jspearmint/parser/vanilla/internal/SMParser.java:146-156 | the word at the cursor in the requested byte order, as the two readers give it |
| Parser.Parser.ParseNextInstruction | com.io7m.jspearmint.parser.vanilla/src/main/java/com/io7m/jspearmint/parser/vanilla/internal/SMParser.java:198-243 | the result and the new cursor are those of ParseNext: empty at a clean end, the instruction otherwise, the end-of-stream error for a truncated instruction |
| Parser.Parser.ParseAllInstructions | com.io7m.jspearmint.parser.vanilla/src/main/java/com/io7m/jspearmint/parser/vanilla/internal/SMParser.java:245-260 | the result is ParseAll from the cursor: every instruction in stream order up to the clean end, or the first error |
| ParserProperties.ParseAllStep | com.io7m.jspearmint.parser.vanilla/src/main/java/com/io7m/jspearmint/parser/vanilla/internal/SMParser.java:249-258 | an instruction parsed at an offset is the first of the list parsed from there, followed by what parsing from the next instruction gives |
| ParserProperties.ParseAllConsumes | com.io7m.jspearmint.parser.vanilla/src/main/java/com/io7m/jspearmint/parser/vanilla/internal/SMParser.java:223-226 | a successful parse consumes 4 · max(1, wordCount) octets per instruction up to the last whole word, leaving fewer than four octets, and each instruction has 16-bit fields, one operand per word after the header and no byte offset |
| ParserProperties.ParseAllFailure | com.io7m.jspearmint.parser.vanilla/src/main/java/com/io7m/jspearmint/parser/vanilla/internal/SMParser.java:235-242 | a failed parse is always a truncated instruction, at an offset past the header word it began with and within the stream |
| ParserProperties.ParseNextOfWords | com.io7m.jspearmint.parser.vanilla/src/main/java/com/io7m/jspearmint/parser/vanilla/internal/SMParser.java:210-234 | where the words at an offset are an instruction's header word and operands, that instruction is parsed there |
| ParserProperties.ParseAllOfWords | com.io7m.jspearmint.parser.vanilla/src/main/java/com/io7m/jspearmint/parser/vanilla/internal/SMParser.java:245-260 | where the words up to the last whole word are the words of a list of instructions, parsing gives exactly that list |
| ParserProperties.ParseAllOfOctets | com.io7m.jspearmint.parser.vanilla/src/main/java/com/io7m/jspearmint/parser/vanilla/internal/SMParser.java:249-259 | the octets of a list of instructions, in either byte order and followed by at most three stray octets, parse back to the list |
| ParserProperties.ParseModuleOfOctets | com.io7m.jspearmint.parser.vanilla/src/main/java/com/io7m/jspearmint/parser/vanilla/internal/SMParser.java:83-114 | the octets of a whole module (magic number, header, instructions) parse back to that module |
| ParserProperties.PreludeOfOctets | com.io7m.jspearmint.parser.vanilla/src/main/java/com/io7m/jspearmint/parser/vanilla/internal/SMParser.java:90-97 | a magic number followed by four encoded header words reads back as that byte order and that header, with instructions starting at octet 20 |
| ParserProperties.WordReverse | com.io7m.jspearmint.tests/src/test/java/com/io7m/jspearmint/tests/WordReverse.java:37-47 | the four octets of each word are written reversed; the result is the input rounded up to whole words, so a stream of whole words keeps its length |
| ParserProperties.WordReverseStale | com.io7m.jspearmint.tests/src/test/java/com/io7m/jspearmint/tests/WordReverse.java:37-47 | a last read of fewer than four octets is padded with the octets the previous read left in the buffer: 1 2 3 4 5 becomes 4 3 2 1 4 3 2 5 |
| ParserProperties.WordReverseWordAt | com.io7m.jspearmint.tests/src/test/java/com/io7m/jspearmint/tests/WordReverse.java:43-46 | a word of the reversed stream read in the other byte order is the original word; its octets are the original's in reverse |
| ParserProperties.SameWordsParseNext | com.io7m.jspearmint.parser.vanilla/src/main/java/com/io7m/jspearmint/parser/vanilla/internal/SMParser.java:198-243 | one parsing step depends only on the words of the stream and its length |
| ParserProperties.SameWordsParseAll | com.io7m.jspearmint.parser.vanilla/src/main/java/com/io7m/jspearmint/parser/vanilla/internal/SMParser.java:245-260 | parsing depends only on the words of the stream and its length |
| ParserProperties.WordReverseParseAll | com.io7m.jspearmint.tests/src/test/java/com/io7m/jspearmint/tests/SMParserContract.java:137-185 | for a stream of whole words, the instructions of its word-reversed copy read in the other byte order are the instructions of the original |
| ParserProperties.WordReverseParseModule | com.io7m.jspearmint.tests/src/test/java/com/io7m/jspearmint/tests/SMParserContract.java:137-185 | a module of whole words and its word-reversed copy give the same header and instructions in opposite byte orders; one fails exactly when the other does, with the same kind of error at the same offset |
| ParserProperties.EmptyStreamFails | com.io7m.jspearmint.tests/src/test/java/com/io7m/jspearmint/tests/SMParserContract.java:52-64 | an empty stream fails at offset 0 |
| ParserProperties.BadMagicFails | com.io7m.jspearmint.parser.vanilla/src/main/java/com/io7m/jspearmint/parser/vanilla/internal/SMParser.java:128-140 | any other first four octets fail as an unrecognized magic number that names those octets and the offset after them |
| ParserProperties.TrivialModules | com.io7m.jspearmint.tests/src/test/java/com/io7m/jspearmint/tests/SMParserContract.java:72-110 | the smallest big- and little-endian modules both give version 1.3, generator magic 0, bound 0 and no instructions |
| ParserProperties.ZeroWordCount | com.io7m.jspearmint.parser.vanilla/src/main/java/com/io7m/jspearmint/parser/vanilla/internal/SMParser.java:223-226 | a header word with word count 0 consumes only itself and gives no operands |
| ParserProperties.TrailingOctetsIgnored | com.io7m.jspearmint.parser.vanilla/src/main/java/com/io7m/jspearmint/parser/vanilla/internal/SMParser.java:203-208 | one to three octets after the last instruction end the stream cleanly |
| ParserProperties.TruncatedInstruction | com.io7m.jspearmint.tests/src/test/java/com/io7m/jspearmint/tests/SMParserContract.java:193-205 | a header announcing operands that are not there fails with an end-of-stream error at the first missing operand |
| ParserApi.Header.VersionMajor | com.io7m.jspearmint.parser.api/src/main/java/com/io7m/jspearmint/parser/api/SMParsedHeaderType.java:58-61 | the major version is below 256 |
| ParserApi.Header.VersionMinor | com.io7m.jspearmint.parser.api/src/main/java/com/io7m/jspearmint/parser/api/SMParsedHeaderType.java:67-70 | the minor version is below 256 |
| ParserApi.VersionFields | com.io7m.jspearmint.parser.api/src/main/java/com/io7m/jspearmint/parser/api/SMParsedHeaderType.java:58-70 | major and minor are recovered from bits 16–23 and 8–15 of any version word, whatever its other octets hold |
| Strings.LowFirstOctetsValue | com.io7m.jspearmint.analysis/src/main/java/com/io7m/jspearmint/analysis/SMStrings.java:54-55 | the four octets of a word, as a little-endian buffer holds them, are its base-256 digits lowest-order first, whatever the module's byte order |
| Strings.TakeUntilZeroPrefix | com.io7m.jspearmint.analysis/src/main/java/com/io7m/jspearmint/analysis/SMStrings.java:64-82 | the octets kept are a prefix of the input; they stop at the first zero octet, or run to the end when there is none |
| Strings.LeadingFullMeaning | com.io7m.jspearmint.analysis/src/main/java/com/io7m/jspearmint/analysis/SMStrings.java:83 | the words counted are exactly those before the first word that holds a zero octet |
| Strings.StringOctets | com.io7m.jspearmint.analysis/src/main/java/com/io7m/jspearmint/analysis/SMStrings.java:61-84 | the collected octets never include a zero |
| Strings.UsedWords | com.io7m.jspearmint.analysis/src/main/java/com/io7m/jspearmint/analysis/SMStrings.java:60 | usedWords lies between 1 and the number of words plus 1 |
| Strings.ConsumeUtf8 | com.io7m.jspearmint.analysis/src/main/java/com/io7m/jspearmint/analysis/SMStrings.java:48-92 | an index past the end is an error (the sublist cannot be taken); otherwise usedWords is at least 1 and at most one more than the number of operands from the index on |
| Strings.ConsumeUtf8String | com.io7m.jspearmint.analysis/src/main/java/com/io7m/jspearmint/analysis/SMStrings.java:48-92 | the loop's result is ConsumeUtf8: the octets word by word up to the first zero octet, decoded and trimmed, with usedWords counting the words consumed whole plus one |
| Strings.CopyOctets | com.io7m.jspearmint.analysis/src/main/java/com/io7m/jspearmint/analysis/SMStrings.java:62-82 | one word's octets are copied in order; copying stops before the first zero octet, and the word counts as complete exactly when it holds none |
| Strings.StringOctetsOfAll | com.io7m.jspearmint.analysis/src/main/java/com/io7m/jspearmint/analysis/SMStrings.java:61-84 | the word-by-word copy is the whole octet stream cut at its first zero octet |
| Strings.StringOctetsLength | com.io7m.jspearmint.analysis/src/main/java/com/io7m/jspearmint/analysis/SMStrings.java:61-84 | the words before the first one holding a zero octet are copied whole, and that word only up to its zero |
| Strings.StopsAtZero | com.io7m.jspearmint.analysis/src/main/java/com/io7m/jspearmint/analysis/SMStrings.java:64-82 | no octet at or after the first zero octet contributes, and usedWords ignores the words after it |
| Strings.NoZeroUsesAll | com.io7m.jspearmint.analysis/src/main/java/com/io7m/jspearmint/analysis/SMStrings.java:61-84 | with no zero octet, every octet of every word is used and usedWords is the word count plus one |
| Strings.ConsumeIgnoresEarlier | com.io7m.jspearmint.analysis/src/main/java/com/io7m/jspearmint/analysis/SMStrings.java:56-57 | decoding starts at operands[index]: the words before it do not matter |
| Strings.NoNul | com.io7m.jspearmint.analysis/src/main/java/com/io7m/jspearmint/analysis/SMStrings.java:64-82 | the decoded text contains no NUL |
| Strings.EmptySlice | com.io7m.jspearmint.analysis/src/main/java/com/io7m/jspearmint/analysis/SMStrings.java:56-61 | an empty slice gives the text "" and usedWords 1 |
| Strings.MakeStringAbc | com.io7m.jspearmint.analysis/src/main/java/com/io7m/jspearmint/analysis/SMStrings.java:94-99 | the octets 'A' 'B' 'C' make the text "ABC" |
| Strings.ConsumeAbc | com.io7m.jspearmint.tests/src/test/java/com/io7m/jspearmint/tests/SMOpDisassemblersTest.java:91-96 | the word 0x434241 decodes to "ABC" with usedWords 1 |
| Utf8.Step | com.io7m.jspearmint.analysis/src/main/java/com/io7m/jspearmint/analysis/SMStrings.java:98 | each decoding step takes one to four octets, and never more than are left |
| Utf8.Decode | com.io7m.jspearmint.analysis/src/main/java/com/io7m/jspearmint/analysis/SMStrings.java:98 | a decoded text has no more characters than the input has octets |
| Utf8.StepEncodeChar | com.io7m.jspearmint.analysis/src/main/java/com/io7m/jspearmint/analysis/SMStrings.java:98 | decoding reads back exactly the one character a well-formed sequence encodes, and its length |
| Utf8.DecodeEncode | com.io7m.jspearmint.analysis/src/main/java/com/io7m/jspearmint/analysis/SMStrings.java:98 | every text survives a UTF-8 encode then decode round trip |
| Utf8.DecodeAscii | com.io7m.jspearmint.analysis/src/main/java/com/io7m/jspearmint/analysis/SMStrings.java:98 | octets below 0x80 decode one to one to the same code points |
| Utf8.DecodeNoNul | com.io7m.jspearmint.analysis/src/main/java/com/io7m/jspearmint/analysis/SMStrings.java:98 | octets without a zero decode to a text without NUL |
| Text.TrimStart | com.io7m.jspearmint.analysis/src/main/java/com/io7m/jspearmint/analysis/SMStrings.java:98 | the result is a suffix of the input; every character removed is at most U+0020, and the result does not start with one |
| Text.TrimEnd | com.io7m.jspearmint.analysis/src/main/java/com/io7m/jspearmint/analysis/SMStrings.java:98 | the result is a prefix of the input; every character removed is at most U+0020, and the result does not end with one |
| Text.Trim | com.io7m.jspearmint.analysis/src/main/java/com/io7m/jspearmint/analysis/SMStrings.java:98 | both ends are stripped: the result neither starts nor ends with a character at most U+0020, and it is empty exactly when every character of the input is one |
| Text.TrimIdempotent | com.io7m.jspearmint.analysis/src/main/java/com/io7m/jspearmint/analysis/SMStrings.java:98 | trimming twice is trimming once |
| Identifiers.IsNameOpCode | com.io7m.jspearmint.analysis/src/main/java/com/io7m/jspearmint/analysis/SMIdentifiers.java:72-78 | an instruction is a registered OpName exactly when its opcode is 5 |
| Identifiers.NameText | com.io7m.jspearmint.analysis/src/main/java/com/io7m/jspearmint/analysis/SMIdentifiers.java:79-83 | the name is the literal string after the id, or "_" when that text is empty; it is never empty |
| Identifiers.EntryOf | com.io7m.jspearmint.analysis/src/main/java/com/io7m/jspearmint/analysis/SMIdentifiers.java:71-98 | only registered OpName instructions define anything; an OpName without operands fails on its id; otherwise it defines operands[0] under its name |
| Identifiers.EntriesOfIndex | com.io7m.jspearmint.analysis/src/main/java/com/io7m/jspearmint/analysis/SMIdentifiers.java:71 | the entries follow the instructions one to one and in order |
| Identifiers.Record | com.io7m.jspearmint.analysis/src/main/java/com/io7m/jspearmint/analysis/SMIdentifiers.java:85-92 | a definition fails exactly when its name is already in nameToId, with a name-redefinition error; a skipped instruction changes nothing |
| Identifiers.Of | com.io7m.jspearmint.analysis/src/main/java/com/io7m/jspearmint/analysis/SMIdentifiers.java:59-105 | the loop's result is IdentifiersOf, the fold of the entries over two empty tables |
| Identifiers.LaterInstructions | com.io7m.jspearmint.analysis/src/main/java/com/io7m/jspearmint/analysis/SMIdentifiers.java:85-89 | once the pass has thrown, the instructions after that point do not matter |
| Identifiers.OthersIgnored | com.io7m.jspearmint.analysis/src/main/java/com/io7m/jspearmint/analysis/SMIdentifiers.java:73-75 | an instruction other than a registered OpName, wherever it stands, leaves the tables as they are |
| Identifiers.BuildOk | com.io7m.jspearmint.analysis/src/main/java/com/io7m/jspearmint/analysis/SMIdentifiers.java:85-92 | the tables are built exactly when no OpName lacks its id and no name comes twice; then nameToId holds exactly the names given, and every (id, n) in idToName has nameToId[n] == id |
| Identifiers.NamesRecorded | com.io7m.jspearmint.analysis/src/main/java/com/io7m/jspearmint/analysis/SMIdentifiers.java:91 | every definition's name is recorded in nameToId under its id |
| Identifiers.LastNameWins | com.io7m.jspearmint.analysis/src/main/java/com/io7m/jspearmint/analysis/SMIdentifiers.java:92 | idToName maps a defined id to the name of the last definition of that id |
| Identifiers.NamedIds | com.io7m.jspearmint.analysis/src/main/java/com/io7m/jspearmint/analysis/SMIdentifiers.java:92 | idToName holds exactly the ids some definition names |
| Identifiers.RepeatedNameFails | com.io7m.jspearmint.analysis/src/main/java/com/io7m/jspearmint/analysis/SMIdentifiers.java:85-89 | a name given twice fails, even when both instructions name the same id |
| Identifiers.RenamedId | com.io7m.jspearmint.analysis/src/main/java/com/io7m/jspearmint/analysis/SMIdentifiers.java:91-92 | an id named twice with different texts keeps the later name in idToName, while nameToId keeps both texts |
| Types.KindOf | com.io7m.jspearmint.analysis/src/main/java/com/io7m/jspearmint/analysis/SMTypes.java:63-81 | a kind is recorded only for a registered opcode whose definition is one of the nine type instructions, and it is that definition |
| Types.Record | com.io7m.jspearmint.analysis/src/main/java/com/io7m/jspearmint/analysis/SMTypes.java:78-79 | a type instruction puts its kind under operands[0] and keeps every other entry; one without operands fails; any other instruction changes nothing |
| Types.Of | com.io7m.jspearmint.analysis/src/main/java/com/io7m/jspearmint/analysis/SMTypes.java:52-91 | the loop's result is TypesOf, the fold of Record over the list |
| Types.LaterInstructions | com.io7m.jspearmint.analysis/src/main/java/com/io7m/jspearmint/analysis/SMTypes.java:78 | once the pass has failed, the instructions after that point do not matter |
| Types.TypesOfOk | com.io7m.jspearmint.analysis/src/main/java/com/io7m/jspearmint/analysis/SMTypes.java:78 | the pass succeeds exactly when every type instruction has a result-id operand |
| Types.OthersIgnored | com.io7m.jspearmint.analysis/src/main/java/com/io7m/jspearmint/analysis/SMTypes.java:63-66 | an unregistered or non-type instruction, wherever it stands, leaves the table unchanged |
| Types.TypesOfDomain | com.io7m.jspearmint.analysis/src/main/java/com/io7m/jspearmint/analysis/SMTypes.java:62-86 | the table's domain is exactly the operands[0] values of the type instructions in the list |
| Types.TypesOfKinds | com.io7m.jspearmint.analysis/src/main/java/com/io7m/jspearmint/analysis/SMTypes.java:69-77 | every kind in the table is one of the nine type instructions |
| Types.LastTypeWins | com.io7m.jspearmint.analysis/src/main/java/com/io7m/jspearmint/analysis/SMTypes.java:79 | each id holds the kind of the last type instruction declaring it |
| Types.Redeclared | com.io7m.jspearmint.analysis/src/main/java/com/io7m/jspearmint/analysis/SMTypes.java:79 | a later type instruction with the same id overwrites the earlier entry |
| Types.IntTypeExample | com.io7m.jspearmint.analysis/src/main/java/com/io7m/jspearmint/analysis/SMTypes.java:69-79 | an OpTypeInt with result id 7 gives the table {7: OpTypeInt} |
| Registry.Op.Value | com.io7m.jspearmint.generation/src/main/java/com/io7m/jspearmint/generation/SMInstructionEnumGeneration.java:72-80 | every instruction's opcode fits the 16-bit opcode field of an instruction word |
| Registry.Op.MinimumOperandCount | com.io7m.jspearmint.generation/src/main/java/com/io7m/jspearmint/generation/SMInstructionEnumGeneration.java:92-104 | the minimum operand count never exceeds the length of the instruction's operand list |
| Registry.LeadingOnes | com.io7m.jspearmint.generation/src/main/java/com/io7m/jspearmint/generation/SMInstructionEnumGeneration.java:92-104 | the count is the length of the longest prefix of operands quantified exactly once: every operand before it is, the one at it is not |
| Registry.InstructionsComplete | com.io7m.jspearmint.tests/src/test/java/com/io7m/jspearmint/tests/SMEqualityTest.java:281-292 | every constant of the instruction enumeration sits in values() at its own position |
| Registry.Decodes | com.io7m.jspearmint.tests/src/test/java/com/io7m/jspearmint/tests/SMEqualityTest.java:148-205 | every constant's grammar name leads back to it, and its opcode does too except for the later member of the alias pair |
| Registry.InstructionValuesDistinct | com.io7m.jspearmint.tests/src/test/java/com/io7m/jspearmint/tests/SMEqualityTest.java:161-184 | two constants with the same opcode are the same constant or the one declared alias pair (opcode 5632) |
| Registry.InstructionNamesDistinct | com.io7m.jspearmint.tests/src/test/java/com/io7m/jspearmint/tests/SMEqualityTest.java:186-199 | two constants with the same grammar name are the same constant |
| Instructions.MakeByOpCode | com.io7m.jspearmint.api/src/main/java/com/io7m/jspearmint/api/SMInstructions.java:37-45 | the loop builds exactly the map that putting every constant under its opcode in order gives |
| Instructions.ByOpCodeOfSound | com.io7m.jspearmint.api/src/main/java/com/io7m/jspearmint/api/SMInstructions.java:41-43 | an opcode is a key exactly when some listed constant has it; its entry has that opcode and is one of the listed constants |
| Instructions.ByOpCodeOfLast | com.io7m.jspearmint.api/src/main/java/com/io7m/jspearmint/api/SMInstructions.java:42 | a constant no later constant shares an opcode with is the entry under its opcode, so a later put overwrites an earlier one |
| Instructions.ByOpCode | com.io7m.jspearmint.api/src/main/java/com/io7m/jspearmint/api/SMInstructions.java:53-57 | the instruction found has the requested opcode, and nothing is found exactly when no instruction has that opcode |
| Instructions.ByOpCodeComplete | com.io7m.jspearmint.api/src/main/java/com/io7m/jspearmint/api/SMInstructions.java:39-44 | every constant's opcode is registered, and outside the alias pair it is registered under the constant itself |
| Instructions.ByOpCodeLastAlias | com.io7m.jspearmint.api/src/main/java/com/io7m/jspearmint/api/SMInstructions.java:42 | opcode 5632 gives OpDecorateStringGOOGLE, the alias declared after OpDecorateString |
| Enumerations.AddressingModelOfInteger | com.io7m.jspearmint.disassembly.vanilla/src/main/java/com/io7m/jspearmint/disassembly/vanilla/internal/SMDOpMemoryModel.java:47 | the constant found has the value asked for; it fails with an unknown-value error exactly when no constant has that value |
| Enumerations.MemoryModelOfInteger | com.io7m.jspearmint.disassembly.vanilla/src/main/java/com/io7m/jspearmint/disassembly/vanilla/internal/SMDOpMemoryModel.java:48 | the constant found has the value asked for; it fails with an unknown-value error exactly when no constant has that value |
| Enumerations.StorageClassOfInteger | com.io7m.jspearmint.disassembly.vanilla/src/main/java/com/io7m/jspearmint/disassembly/vanilla/internal/SMDOpVariable.java:42 | the constant found has the value asked for; it fails with an unknown-value error exactly when no constant has that value |
| Enumerations.FunctionControlOfInteger | com.io7m.jspearmint.disassembly.vanilla/src/main/java/com/io7m/jspearmint/disassembly/vanilla/internal/SMDOpFunction.java:41 | the constant found has the value asked for; it fails with an unknown-value error exactly when no constant has that value |
| Enumerations.MemoryAccessOfInteger | com.io7m.jspearmint.disassembly.vanilla/src/main/java/com/io7m/jspearmint/disassembly/vanilla/internal/SMDOpStore.java:53 | the constant found has the value asked for; it fails with an unknown-value error exactly when no constant has that value |
| Enumerations.CapabilityOfInteger | com.io7m.jspearmint.disassembly.vanilla/src/main/java/com/io7m/jspearmint/disassembly/vanilla/internal/SMDOpCapability.java:47 | the constant found has the value asked for; it fails with an unknown-value error exactly when no constant has that value |
| Enumerations.AddressingModelRoundTrip | com.io7m.jspearmint.tests/src/test/java/com/io7m/jspearmint/tests/SMEqualityTest.java:207-229 | ofInteger of a constant's value is that constant, exactly except for the alias PhysicalStorageBuffer64EXT |
| Enumerations.MemoryModelRoundTrip | com.io7m.jspearmint.tests/src/test/java/com/io7m/jspearmint/tests/SMEqualityTest.java:207-229 | ofInteger of a constant's value is that constant, exactly except for the alias VulkanKHR |
| Enumerations.StorageClassRoundTrip | com.io7m.jspearmint.tests/src/test/java/com/io7m/jspearmint/tests/SMEqualityTest.java:207-229 | ofInteger of every storage class's value is that storage class |
| Enumerations.FunctionControlRoundTrip | com.io7m.jspearmint.tests/src/test/java/com/io7m/jspearmint/tests/SMEqualityTest.java:207-229 | ofInteger of every function control's value is that function control |
| Enumerations.MemoryAccessRoundTrip | com.io7m.jspearmint.tests/src/test/java/com/io7m/jspearmint/tests/SMEqualityTest.java:207-229 | ofInteger of a constant's value is that constant, exactly except for the three KHR aliases |
| Enumerations.CapabilityRoundTrip | com.io7m.jspearmint.tests/src/test/java/com/io7m/jspearmint/tests/SMEqualityTest.java:207-229 | ofInteger of every capability's value is that capability |
| Enumerations.MaxValueUnknown | com.io7m.jspearmint.tests/src/test/java/com/io7m/jspearmint/tests/SMEqualityTest.java:231-237 | Integer.MAX_VALUE is rejected as an unknown value by every modelled enumeration |
| Enumerations.EnumName | com.io7m.jspearmint.disassembly.vanilla/src/main/java/com/io7m/jspearmint/disassembly/vanilla/internal/SMDOpCapability.java:46-48 | the only failure of naming an enumeration value is the unknown-value error for that value |
| EnumGeneration.InstructionMinimumOperands | com.io7m.jspearmint.generation/src/main/java/com/io7m/jspearmint/generation/SMInstructionEnumGeneration.java:92-104 | the loop counts the operands before the first non-blank quantifier: all counted ones are blank and the next one, if any, is not |
| EnumGeneration.MinimumOperandsUnique | com.io7m.jspearmint.generation/src/main/java/com/io7m/jspearmint/generation/SMInstructionEnumGeneration.java:96-102 | those conditions fix the count: no two numbers both meet them |
| EnumGeneration.TransformQuantifier | com.io7m.jspearmint.generation/src/main/java/com/io7m/jspearmint/generation/SMInstructionEnumGeneration.java:163-176 | any failure is the unrecognised-quantifier error for the text given |
| EnumGeneration.TransformQuantifierInverse | com.io7m.jspearmint.generation/src/main/java/com/io7m/jspearmint/generation/SMInstructionEnumGeneration.java:166-175 | exactly the texts "", "?" and "*" are accepted, and each gives the quantifier whose grammar text it is |
| EnumGeneration.RemoveApostrophes | com.io7m.jspearmint.generation/src/main/java/com/io7m/jspearmint/generation/SMInstructionEnumGeneration.java:151 | no apostrophe is left and the name never grows |
| EnumGeneration.RemoveApostrophesNone | com.io7m.jspearmint.generation/src/main/java/com/io7m/jspearmint/generation/SMInstructionEnumGeneration.java:151 | a name without apostrophes comes back unchanged |
| EnumGeneration.RemoveApostrophesKeeps | com.io7m.jspearmint.generation/src/main/java/com/io7m/jspearmint/generation/SMInstructionEnumGeneration.java:151 | every character other than the apostrophe keeps its number of occurrences, and no apostrophe remains |
| EnumGeneration.RemoveApostrophesAppend | com.io7m.jspearmint.generation/src/main/java/com/io7m/jspearmint/generation/SMInstructionEnumGeneration.java:151 | removal distributes over concatenation, so the remaining characters keep their order |
| EnumGeneration.MinimumOperandsAgree | com.io7m.jspearmint.generation/src/main/java/com/io7m/jspearmint/generation/SMInstructionEnumGeneration.java:80 | for well-formed quantifiers the generated minimum count equals the number of leading operands quantified once in the generated operand list |
| EnumGeneration.BlankQuantifier | com.io7m.jspearmint.generation/src/main/java/com/io7m/jspearmint/generation/SMInstructionEnumGeneration.java:98 | of the three grammar quantifier texts only "" is blank after trimming |
| EnumGeneration.ToUpper | com.io7m.jspearmint.generation/src/main/java/com/io7m/jspearmint/generation/SMInstructionEnumGeneration.java:205 | upper-casing leaves no lower-case letter, maps lower-case letters to upper-case ones and leaves other characters alone |
| EnumGeneration.TransformEnumConstantName | com.io7m.jspearmint.generation/src/main/java/com/io7m/jspearmint/generation/SMInstructionEnumGeneration.java:186-210 | the loop gives "SM_" followed by the upper-cased name with an underscore before each lower-to-upper boundary |
| EnumGeneration.ConstantNameLength | com.io7m.jspearmint.generation/src/main/java/com/io7m/jspearmint/generation/SMInstructionEnumGeneration.java:191-209 | the result has "SM_", one character per input character and one underscore per boundary |
| EnumGeneration.ConstantNameUpper | com.io7m.jspearmint.generation/src/main/java/com/io7m/jspearmint/generation/SMInstructionEnumGeneration.java:205 | no lower-case letter survives in the constant name |
| EnumGeneration.ConstantNameWithoutUnderscores | com.io7m.jspearmint.generation/src/main/java/com/io7m/jspearmint/generation/SMInstructionEnumGeneration.java:196-207 | removing the inserted underscores from the name of an underscore-free text gives the text upper-cased, so only underscores are added |
| EnumGeneration.ConstantNameOpTypeFloat | com.io7m.jspearmint.generation/src/main/java/com/io7m/jspearmint/generation/SMInstructionEnumGeneration.java:196-206 | "OpTypeFloat" becomes "SM_OP_TYPE_FLOAT" |
| EnumGeneration.ConstantNameGLSL450 | com.io7m.jspearmint.generation/src/main/java/com/io7m/jspearmint/generation/SMInstructionEnumGeneration.java:196-206 | "GLSL450" becomes "SM_GLSL450": no underscore after a capital or a digit |
| Formatting.IdString | com.io7m.jspearmint.disassembly.vanilla/src/main/java/com/io7m/jspearmint/disassembly/vanilla/internal/SMFormatting.java:29-51 | "%" then the decimal of the id, with a minus sign for a negative one |
| Formatting.IdStringInjective | com.io7m.jspearmint.disassembly.vanilla/src/main/java/com/io7m/jspearmint/disassembly/vanilla/internal/SMFormatting.java:29-51 | different ids are never written alike |
| Formatting.Unsigned | com.io7m.jspearmint.disassembly.vanilla/src/main/java/com/io7m/jspearmint/disassembly/vanilla/internal/SMFormatting.java:67 | Long.toUnsignedString reads a long as the number below 2^64 with the same 64-bit pattern |
| Formatting.Literal | com.io7m.jspearmint.disassembly.vanilla/src/main/java/com/io7m/jspearmint/disassembly/vanilla/internal/SMFormatting.java:65-73 | "$" then decimal digits whose value is the long read as unsigned |
| Formatting.LiteralWord | com.io7m.jspearmint.disassembly.vanilla/src/main/java/com/io7m/jspearmint/disassembly/vanilla/internal/SMFormatting.java:65-68 | a word is written as its own value, with no sign |
| Formatting.LiteralInjective | com.io7m.jspearmint.disassembly.vanilla/src/main/java/com/io7m/jspearmint/disassembly/vanilla/internal/SMFormatting.java:65-73 | two longs get the same literal only when they are the same long |
| Formatting.Hex4RoundTrip | com.io7m.jspearmint.disassembly.vanilla/src/main/java/com/io7m/jspearmint/disassembly/vanilla/internal/SMFormatting.java:56 | the four upper-case hexadecimal digits of a \u escape read back to the code unit |
| Formatting.EscapeJava | com.io7m.jspearmint.disassembly.vanilla/src/main/java/com/io7m/jspearmint/disassembly/vanilla/internal/SMFormatting.java:56 | escaping never shortens a text |
| Formatting.QuoteString | com.io7m.jspearmint.disassembly.vanilla/src/main/java/com/io7m/jspearmint/disassembly/vanilla/internal/SMFormatting.java:53-57 | the escaped text between two double quotes |
| Formatting.UnescapeStep | com.io7m.jspearmint.disassembly.vanilla/src/main/java/com/io7m/jspearmint/disassembly/vanilla/internal/SMFormatting.java:56 | reading a Java string literal body back consumes at least one character and no more than there are |
| Formatting.StepEscapeChar | com.io7m.jspearmint.disassembly.vanilla/src/main/java/com/io7m/jspearmint/disassembly/vanilla/internal/SMFormatting.java:56 | the escape of any one character, whatever follows it, reads back as that character and takes exactly its own length |
| Formatting.StepPair | com.io7m.jspearmint.disassembly.vanilla/src/main/java/com/io7m/jspearmint/disassembly/vanilla/internal/SMFormatting.java:56 | a high-surrogate escape followed by a low-surrogate escape reads back as the one code point the pair encodes |
| Formatting.UnescapeEscape | com.io7m.jspearmint.disassembly.vanilla/src/main/java/com/io7m/jspearmint/disassembly/vanilla/internal/SMFormatting.java:56 | every text survives escapeJava and reading back: escaping loses nothing |
| Formatting.EscapedPrintable | com.io7m.jspearmint.disassembly.vanilla/src/main/java/com/io7m/jspearmint/disassembly/vanilla/internal/SMFormatting.java:56 | an escaped text holds only U+0020 to U+007F |
| Formatting.EscapePlain | com.io7m.jspearmint.disassembly.vanilla/src/main/java/com/io7m/jspearmint/disassembly/vanilla/internal/SMFormatting.java:56 | printable ASCII text without quote or backslash is written unchanged |
| Formatting.QuoteAbc | com.io7m.jspearmint.tests/src/test/java/com/io7m/jspearmint/tests/SMOpDisassemblersTest.java:88-97 | the text ABC is quoted as "ABC" |
| DisassemblerContext.IdString | com.io7m.jspearmint.disassembly.vanilla/src/main/java/com/io7m/jspearmint/disassembly/vanilla/internal/SMOpDisassemblerContext.java:46-63 | numeric mode, or an id without a name, writes "%" and the number; named mode writes "%" and the id's OpName name |
| DisassemblerContext.RawIdReadsBack | com.io7m.jspearmint.disassembly.vanilla/src/main/java/com/io7m/jspearmint/disassembly/vanilla/internal/SMOpDisassemblerContext.java:50-52 | in numeric mode the digits after "%" read back as the id itself |
| DisassemblerContext.NamedIdResolves | com.io7m.jspearmint.disassembly.vanilla/src/main/java/com/io7m/jspearmint/disassembly/vanilla/internal/SMOpDisassemblerContext.java:53-59 | in named mode the name written for an id leads back to that id through the name table |
| DisassemblerContext.Literal | com.io7m.jspearmint.disassembly.vanilla/src/main/java/com/io7m/jspearmint/disassembly/vanilla/internal/SMOpDisassemblerContext.java:65-69 | a literal is written as SMFormatting writes it, and its digits read back as the value |
| DisassemblerContext.LiteralTyped | com.io7m.jspearmint.disassembly.vanilla/src/main/java/com/io7m/jspearmint/disassembly/vanilla/internal/SMOpDisassemblerContext.java:71-90 | an unknown type id or a non-numeric type writes "$?" and the value, an integer type the literal, a float type its float text |
| DisassemblerContext.QuoteString | com.io7m.jspearmint.disassembly.vanilla/src/main/java/com/io7m/jspearmint/disassembly/vanilla/internal/SMOpDisassemblerContext.java:92-96 | the quoted string's body reads back to exactly the string's text |
| Formatters.IdStrings | com.io7m.jspearmint.disassembly.vanilla/src/main/java/com/io7m/jspearmint/disassembly/vanilla/internal/SMDOpCompositeConstruct.java:49-51 | one written id per operand, in order |
| Formatters.StoreTokens | com.io7m.jspearmint.disassembly.vanilla/src/main/java/com/io7m/jspearmint/disassembly/vanilla/internal/SMDOpStore.java:41-59 | pointer and object ids, then the memory access's name, or "None" with only two operands; an unknown memory access fails, and fewer than two operands is a missing operand |
| Formatters.DisassembleStore | com.io7m.jspearmint.disassembly.vanilla/src/main/java/com/io7m/jspearmint/disassembly/vanilla/internal/SMDOpStore.java:41-59 | the appending code gives exactly the tokens StoreTokens describes |
| Formatters.StoreIgnoresRest | com.io7m.jspearmint.disassembly.vanilla/src/main/java/com/io7m/jspearmint/disassembly/vanilla/internal/SMDOpStore.java:52-55 | operands after the memory access never change the tokens |
| Formatters.CompositeConstructTokens | com.io7m.jspearmint.disassembly.vanilla/src/main/java/com/io7m/jspearmint/disassembly/vanilla/internal/SMDOpCompositeConstruct.java:41-53 | the result type id, then one id per constituent: one token fewer than operands; no operand and a single operand fail differently |
| Formatters.DisassembleCompositeConstruct | com.io7m.jspearmint.disassembly.vanilla/src/main/java/com/io7m/jspearmint/disassembly/vanilla/internal/SMDOpCompositeConstruct.java:41-53 | the loop gives exactly the tokens CompositeConstructTokens describes |
| Formatters.CompositeConstructSkipsResult | com.io7m.jspearmint.disassembly.vanilla/src/main/java/com/io7m/jspearmint/disassembly/vanilla/internal/SMDOpCompositeConstruct.java:48-51 | the result id never appears: changing it leaves the tokens as they are |
| Formatters.VariableTokens | com.io7m.jspearmint.disassembly.vanilla/src/main/java/com/io7m/jspearmint/disassembly/vanilla/internal/SMDOpVariable.java:34-47 | the result type id, the storage class's name, and the initializer id only when a fourth operand exists; an unknown storage class fails |
| Formatters.DisassembleVariable | com.io7m.jspearmint.disassembly.vanilla/src/main/java/com/io7m/jspearmint/disassembly/vanilla/internal/SMDOpVariable.java:34-47 | the appending code gives exactly the tokens VariableTokens describes |
| Formatters.VariableIgnores | com.io7m.jspearmint.disassembly.vanilla/src/main/java/com/io7m/jspearmint/disassembly/vanilla/internal/SMDOpVariable.java:41-45 | neither the result id nor operands after the initializer change the tokens |
| Formatters.MemoryModelTokens | com.io7m.jspearmint.disassembly.vanilla/src/main/java/com/io7m/jspearmint/disassembly/vanilla/internal/SMDOpMemoryModel.java:41-50 | succeeds exactly when both values are known, giving the addressing model's and the memory model's names |
| Formatters.FunctionTokens | com.io7m.jspearmint.disassembly.vanilla/src/main/java/com/io7m/jspearmint/disassembly/vanilla/internal/SMDOpFunction.java:33-44 | succeeds exactly with four operands and a known function control, giving the result type id, the control's name and the function type id |
| Formatters.CapabilityTokens | com.io7m.jspearmint.disassembly.vanilla/src/main/java/com/io7m/jspearmint/disassembly/vanilla/internal/SMDOpCapability.java:41-50 | the capability's name, or the unknown-value error for the operand's intValue |
| Formatters.TypeFunctionTokens | com.io7m.jspearmint.disassembly.vanilla/src/main/java/com/io7m/jspearmint/disassembly/vanilla/internal/SMDOpTypeFunction.java:33-43 | every operand after the result id as an id, in order; it cannot fail |
| Formatters.TypeFloatTokens | com.io7m.jspearmint.disassembly.vanilla/src/main/java/com/io7m/jspearmint/disassembly/vanilla/internal/SMDOpTypeFloat.java:39-47 | the width written as a literal; fewer than two operands is a missing operand |
| Formatters.RawTokens | com.io7m.jspearmint.disassembly.vanilla/src/main/java/com/io7m/jspearmint/disassembly/vanilla/internal/SMRawDisassembler.java:44-59 | one token per operand, with no check and no failure |
| Formatters.RawTokensMeaning | com.io7m.jspearmint.disassembly.vanilla/src/main/java/com/io7m/jspearmint/disassembly/vanilla/internal/SMRawDisassembler.java:55-58 | each raw token is "$" and digits whose value is the operand at the same position |
| Formatters.MismatchAsWritten | com.io7m.jspearmint.disassembly.vanilla/src/main/java/com/io7m/jspearmint/disassembly/vanilla/internal/SMDAbstractOpDisassembler.java:51-58 | the message as written names the parsed opcode as expected and the formatter's as received |
| Formatters.MismatchAsWrittenSwapped | com.io7m.jspearmint.disassembly.vanilla/src/main/java/com/io7m/jspearmint/disassembly/vanilla/internal/SMDAbstractOpDisassembler.java:51-58 | an OpStore formatter handed opcode 61 says it expected 61 and received 62 |
| Formatters.Mismatch | com.io7m.jspearmint.disassembly.vanilla/src/main/java/com/io7m/jspearmint/disassembly/vanilla/internal/SMDAbstractOpDisassembler.java:49-59 | the corrected failure names the formatter's opcode as expected and the parsed one as received |
| Formatters.Disassemble | com.io7m.jspearmint.disassembly.vanilla/src/main/java/com/io7m/jspearmint/disassembly/vanilla/internal/SMDAbstractOpDisassembler.java:41-74 | a foreign opcode fails first, with the parsed opcode given as expected and the formatter's as received as the code passes them; then too few operands; only an instruction passing both checks reaches the formatter's own code |
| Formatters.DisassembleCorrected | com.io7m.jspearmint.disassembly.vanilla/src/main/java/com/io7m/jspearmint/disassembly/vanilla/internal/SMDAbstractOpDisassembler.java:41-74 | the same guard with the mismatch failure naming the formatter's opcode as expected and the parsed one as received |
| Formatters.DisassembleCorrectedAgrees | com.io7m.jspearmint.disassembly.vanilla/src/main/java/com/io7m/jspearmint/disassembly/vanilla/internal/SMDAbstractOpDisassembler.java:49-59 | the code as written and the corrected guard agree on every instruction with the formatter's opcode, and on any other both fail with the same two opcodes in swapped roles |
| Formatters.GuardedNeverMissing | com.io7m.jspearmint.disassembly.vanilla/src/main/java/com/io7m/jspearmint/disassembly/vanilla/internal/SMDAbstractOpDisassembler.java:61-73 | behind the checks no modelled formatter reads a missing operand: its only failures are the two checks and an unknown enumeration value |
| Formatters.MinimumCount | com.io7m.jspearmint.generation/src/main/java/com/io7m/jspearmint/generation/SMInstructionEnumGeneration.java:92-104 | the minimum operand counts of the modelled instructions, as derived from their operand lists |
| Formatters.ActualNeverMissing | com.io7m.jspearmint.disassembly.vanilla/src/main/java/com/io7m/jspearmint/disassembly/vanilla/internal/SMDAbstractOpDisassembler.java:61-73 | with the minimum count present a modelled formatter fails only on an unknown enumeration value |
| FormatterExamples.CompositeConstructExample | com.io7m.jspearmint.tests/src/test/java/com/io7m/jspearmint/tests/SMOpDisassemblersTest.java:349-365 | OpCompositeConstruct 13 0 17 23 gives %13 %17 %23 |
| FormatterExamples.VariableExamples | com.io7m.jspearmint.tests/src/test/java/com/io7m/jspearmint/tests/SMOpDisassemblersTest.java:289-319 | OpVariable 14 0 Output gives %14 Output, and with initializer 33 also %33 |
| FormatterExamples.MemoryModelExample | com.io7m.jspearmint.tests/src/test/java/com/io7m/jspearmint/tests/SMOpDisassemblersTest.java:259-271 | OpMemoryModel Logical GLSL450 gives Logical GLSL450 |
| FormatterExamples.FunctionExample | com.io7m.jspearmint.tests/src/test/java/com/io7m/jspearmint/tests/SMOpDisassemblersTest.java:429-445 | OpFunction 13 0 Const 17 gives %13 Const %17 |
| FormatterExamples.CapabilityExamples | com.io7m.jspearmint.tests/src/test/java/com/io7m/jspearmint/tests/SMOpDisassemblersTest.java:237-246 | OpCapability Shader gives Shader, and Integer.MAX_VALUE is an unknown value |
| FormatterExamples.TypeFloatExample | com.io7m.jspearmint.tests/src/test/java/com/io7m/jspearmint/tests/SMOpDisassemblersTest.java:169-178 | OpTypeFloat 0 32 gives $32 |
| FormatterExamples.StoreExamples | com.io7m.jspearmint.tests/src/test/java/com/io7m/jspearmint/tests/SMOpDisassemblersTest.java:143-167 | OpStore 3 5 Aligned gives %3 %5 Aligned, and OpStore 3 5 gives %3 %5 None |
| FormatterExamples.MismatchExample | com.io7m.jspearmint.disassembly.vanilla/src/main/java/com/io7m/jspearmint/disassembly/vanilla/internal/SMDAbstractOpDisassembler.java:49-59 | as written, an OpStore formatter handed an OpLoad fails with 61 (the parsed opcode) as expected and 62 as received |
| FormatterExamples.MismatchCorrectedExample | com.io7m.jspearmint.disassembly.vanilla/src/main/java/com/io7m/jspearmint/disassembly/vanilla/internal/SMDAbstractOpDisassembler.java:49-59 | the corrected guard reports 62 (the OpStore formatter's opcode) as expected and 61 as received |
| FormatterExamples.TooFewExample | com.io7m.jspearmint.disassembly.vanilla/src/main/java/com/io7m/jspearmint/disassembly/vanilla/internal/SMDAbstractOpDisassembler.java:61-71 | OpFunction with two operands fails: four expected, two received |
| OpDisassemblers.CollectToMapOk | com.io7m.jspearmint.disassembly.vanilla/src/main/java/com/io7m/jspearmint/disassembly/vanilla/internal/SMOpDisassemblers.java:83-89 | collecting succeeds exactly when no two formatters are for one instruction, and the keys are then exactly their instructions |
| OpDisassemblers.CollectToMapEntries | com.io7m.jspearmint.disassembly.vanilla/src/main/java/com/io7m/jspearmint/disassembly/vanilla/internal/SMOpDisassemblers.java:83-89 | the table has one entry per formatter, each under the instruction that formatter is for |
| OpDisassemblers.ListedDistinct | com.io7m.jspearmint.disassembly.vanilla/src/main/java/com/io7m/jspearmint/disassembly/vanilla/internal/SMOpDisassemblers.java:32-61 | the 27 listed formatters are for 27 different instructions |
| OpDisassemblers.CreateOk | com.io7m.jspearmint.disassembly.vanilla/src/main/java/com/io7m/jspearmint/disassembly/vanilla/internal/SMOpDisassemblers.java:75-81 | create never fails and gives 27 entries, each the formatter for its own key |
| OpDisassemblers.ListedIff | com.io7m.jspearmint.disassembly.vanilla/src/main/java/com/io7m/jspearmint/disassembly/vanilla/internal/SMOpDisassemblers.java:32-61 | an instruction is in the list exactly when it has a position in it |
| OpDisassemblers.FindDisassembler | com.io7m.jspearmint.disassembly.vanilla/src/main/java/com/io7m/jspearmint/disassembly/vanilla/internal/SMOpDisassemblers.java:91-98 | a specific formatter is chosen exactly when the opcode is registered and its instruction is in the table, and it is the table's entry |
| OpDisassemblers.FoundFormatter | com.io7m.jspearmint.disassembly.vanilla/src/main/java/com/io7m/jspearmint/disassembly/vanilla/internal/SMOpDisassemblers.java:94-97 | with the created table a specific formatter is chosen exactly for registered, listed opcodes, and it is for the instruction with that opcode |
| OpDisassemblers.UnregisteredIsRaw | com.io7m.jspearmint.disassembly.vanilla/src/main/java/com/io7m/jspearmint/disassembly/vanilla/internal/SMOpDisassemblers.java:94-97 | an opcode no instruction has is always given the raw formatter |
| OpDisassemblers.Format | com.io7m.jspearmint.disassembly.vanilla/src/main/java/com/io7m/jspearmint/disassembly/vanilla/internal/SMOpDisassemblers.java:91-98 | the raw formatter gives the raw tokens and a specific one runs its guarded disassembly |
| OpDisassemblers.FoundPassesOpcodeCheck | com.io7m.jspearmint.disassembly.vanilla/src/main/java/com/io7m/jspearmint/disassembly/vanilla/internal/SMDAbstractOpDisassembler.java:49-59 | a formatter from the created table never fails the opcode check: only the operand count stands before its tokens |
| Columns.PaddedHex | com.io7m.jspearmint.disassembly.vanilla/src/main/java/com/io7m/jspearmint/disassembly/vanilla/internal/SMDisassembler.java:58-60 | "%08x": at least eight hexadecimal digits reading back to the offset, exactly Hex8 below 2^32 |
| Columns.FormatOffset | com.io7m.jspearmint.disassembly.vanilla/src/main/java/com/io7m/jspearmint/disassembly/vanilla/internal/SMDisassembler.java:55-61 | "0x", hexadecimal digits reading back to the offset, and " \|"; twelve characters for offsets below 2^32 |
| Columns.FormatRawOperand | com.io7m.jspearmint.disassembly.vanilla/src/main/java/com/io7m/jspearmint/disassembly/vanilla/internal/SMDisassembler.java:63-66 | "$0x" and eight hexadecimal digits reading back to the word |
| Columns.AssignmentShape | com.io7m.jspearmint.disassembly.vanilla/src/main/java/com/io7m/jspearmint/disassembly/vanilla/internal/SMDisassembler.java:149-157 | the assignment column is spaces, "%", the id's digits reading back to the id, and " =", twelve wide unless the id needs more |
| Columns.AssignmentWidth | com.io7m.jspearmint.disassembly.vanilla/src/main/java/com/io7m/jspearmint/disassembly/vanilla/internal/SMDisassembler.java:149-157 | ids below 10^9 keep the assignment exactly twelve wide |
| Columns.RawOperandsFields | com.io7m.jspearmint.disassembly.vanilla/src/main/java/com/io7m/jspearmint/disassembly/vanilla/internal/SMDisassembler.java:125-128 | operand k of a raw line fills the k-th twelve-character field |
| Columns.RawColumns | com.io7m.jspearmint.disassembly.vanilla/src/main/java/com/io7m/jspearmint/disassembly/vanilla/internal/SMDisassembler.java:113-132 | a raw line has the offset in columns 0-11, blanks to column 25, "? " at 26, and the operand fields from column 28 |
| Columns.RegisteredColumns | com.io7m.jspearmint.disassembly.vanilla/src/main/java/com/io7m/jspearmint/disassembly/vanilla/internal/SMDisassembler.java:84-99 | offset, assignment in columns 13-24, mnemonic from column 26, then the operands after a space when there are any; a failure cuts the line where it happens |
| Columns.Banner | com.io7m.jspearmint.disassembly.vanilla/src/main/java/com/io7m/jspearmint/disassembly/vanilla/internal/SMDisassembler.java:192-219 | six lines: "; SPIR-V", the version, the generator magic in hexadecimal reading back to the header's, the bound and the schema in decimal reading back to the header's, and a blank line |
| Columns.CollectMeaning | com.io7m.jspearmint.disassembly.vanilla/src/main/java/com/io7m/jspearmint/disassembly/vanilla/internal/SMDisassembler.java:221-228 | without a failure one finished line per written line in order; with one, the lines before the first failing one and its unfinished text |
| Columns.CollectAfterFailure | com.io7m.jspearmint.disassembly.vanilla/src/main/java/com/io7m/jspearmint/disassembly/vanilla/internal/SMDisassembler.java:221-228 | once a prefix has failed nothing after it is written |
| Columns.Writer.Append | com.io7m.jspearmint.disassembly.vanilla/src/main/java/com/io7m/jspearmint/disassembly/vanilla/internal/SMDisassembler.java:84-97 | appending extends the current line and leaves the finished lines alone |
| Columns.Writer.NewLine | com.io7m.jspearmint.disassembly.vanilla/src/main/java/com/io7m/jspearmint/disassembly/vanilla/internal/SMDisassembler.java:99 | the current line becomes the last finished line and a new empty one starts |
| Columns.WriteRawOperands | com.io7m.jspearmint.disassembly.vanilla/src/main/java/com/io7m/jspearmint/disassembly/vanilla/internal/SMDisassembler.java:125-128 | the loop appends exactly the raw operand fields |
| Columns.DisassembleRaw | com.io7m.jspearmint.disassembly.vanilla/src/main/java/com/io7m/jspearmint/disassembly/vanilla/internal/SMDisassembler.java:113-132 | exactly one finished line, the raw line, is added |
| Columns.DisassembleRegistered | com.io7m.jspearmint.disassembly.vanilla/src/main/java/com/io7m/jspearmint/disassembly/vanilla/internal/SMDisassembler.java:84-99 | a finished line when nothing fails, otherwise the text before the failure left unfinished and the failure reported |
| Columns.WriteBanner | com.io7m.jspearmint.disassembly.vanilla/src/main/java/com/io7m/jspearmint/disassembly/vanilla/internal/SMDisassembler.java:191-219 | the banner's six lines are added as finished lines |
| Disassembler.ResultIdPosition | com.io7m.jspearmint.disassembly.vanilla/src/main/java/com/io7m/jspearmint/disassembly/vanilla/internal/SMDisassembler.java:140-160 | the result id is the second operand after a result type, else the first when it is a result id, else there is none |
| Disassembler.FormatAssignment | com.io7m.jspearmint.disassembly.vanilla/src/main/java/com/io7m/jspearmint/disassembly/vanilla/internal/SMDisassembler.java:134-163 | an instruction with a result id gets its assignment, or a missing operand failure; others get the blank column |
| Disassembler.FormatInstructionOperands | com.io7m.jspearmint.disassembly.vanilla/src/main/java/com/io7m/jspearmint/disassembly/vanilla/internal/SMDisassembler.java:103-111 | the chosen formatter's tokens joined by single spaces, or its failure |
| Disassembler.AssignmentColumn | com.io7m.jspearmint.disassembly.vanilla/src/main/java/com/io7m/jspearmint/disassembly/vanilla/internal/SMDisassembler.java:149 | with ids below 10^9 a successful assignment is twelve wide |
| Disassembler.BodyMeaning | com.io7m.jspearmint.disassembly.vanilla/src/main/java/com/io7m/jspearmint/disassembly/vanilla/internal/SMDisassembler.java:221-228 | one line per instruction in order, or the lines before the first failing instruction and its partial text; no failure exactly when no line fails |
| Disassembler.LaterInstructions | com.io7m.jspearmint.disassembly.vanilla/src/main/java/com/io7m/jspearmint/disassembly/vanilla/internal/SMDisassembler.java:221-228 | once a prefix of the instructions has failed the rest is not written |
| Disassembler.OutputShape | com.io7m.jspearmint.disassembly.vanilla/src/main/java/com/io7m/jspearmint/disassembly/vanilla/internal/SMDisassembler.java:192-228 | when both analyses succeed the output is the banner followed by the instruction lines |
| Disassembler.AnalysisFailureWritesNothing | com.io7m.jspearmint.disassembly.vanilla/src/main/java/com/io7m/jspearmint/disassembly/vanilla/internal/SMDisassembler.java:184-189 | a failing analysis writes nothing, not even the banner, and reports that analysis's failure |
| Disassembler.DisassembleInstruction | com.io7m.jspearmint.disassembly.vanilla/src/main/java/com/io7m/jspearmint/disassembly/vanilla/internal/SMDisassembler.java:68-101 | the instruction's whole line, or its text up to the failure left unfinished with the failure reported |
| Disassembler.DisassembleBody | com.io7m.jspearmint.disassembly.vanilla/src/main/java/com/io7m/jspearmint/disassembly/vanilla/internal/SMDisassembler.java:221-228 | the loop writes exactly the lines, partial text and failure that Body describes |
| Disassembler.Disassemble | com.io7m.jspearmint.disassembly.vanilla/src/main/java/com/io7m/jspearmint/disassembly/vanilla/internal/SMDisassembler.java:171-230 | the writer ends with exactly the output Output describes: nothing after a failed analysis, else the banner and the lines up to the first failure |
| Text.NatToStringValue | com.io7m.jspearmint.disassembly.vanilla/src/main/java/com/io7m/jspearmint/disassembly/vanilla/internal/SMDisassembler.java:149 | decimal digits read back to the number they were written from |
| Text.NatToStringInjective | com.io7m.jspearmint.disassembly.vanilla/src/main/java/com/io7m/jspearmint/disassembly/vanilla/internal/SMFormatting.java:29-51 | different numbers never print alike |
| Text.HexStringValue | com.io7m.jspearmint.disassembly.vanilla/src/main/java/com/io7m/jspearmint/disassembly/vanilla/internal/SMDisassembler.java:58-59 | hexadecimal digits read back to the number they were written from |
| Text.Hex8 | com.io7m.jspearmint.disassembly.vanilla/src/main/java/com/io7m/jspearmint/disassembly/vanilla/internal/SMDisassembler.java:65 | "%08x" of a word is eight lower-case hexadecimal digits reading back to the word |
| Text.PadLeft | com.io7m.jspearmint.disassembly.vanilla/src/main/java/com/io7m/jspearmint/disassembly/vanilla/internal/SMDisassembler.java:149 | "%12s": right-aligned in spaces, never cut |
| Text.Join | com.io7m.jspearmint.disassembly.vanilla/src/main/java/com/io7m/jspearmint/disassembly/vanilla/internal/SMDisassembler.java:108-110 | String.join of no tokens is empty and of one token is that token |
| Text.JoinLength | com.io7m.jspearmint.disassembly.vanilla/src/main/java/com/io7m/jspearmint/disassembly/vanilla/internal/SMDisassembler.java:108-110 | the joined text has every token and one separator between each neighbouring pair |
| Base.IntValue | com.io7m.jspearmint.disassembly.vanilla/src/main/java/com/io7m/jspearmint/disassembly/vanilla/internal/SMDOpCapability.java:47 | Long.intValue: a 32-bit two's-complement int congruent to the word, equal to it below 2^31 |

## Left out

- Command line, services and module wiring (`Main`, `SMCommandVersion`, `SMServices`, `module-info.java`): argument parsing, exit codes and ServiceLoader I/O hold no modellable logic.
- `SMParsers`: a factory of streams and readers. The jbssio reader is modelled by the `Parser.Reader` class. Its behaviour on a short read is assumed to be an end-of-stream failure that leaves the cursor where the read began. So any end of stream inside an instruction's header word is a clean end, and a bad magic number is reported at offset 4.
- I/O exceptions other than end of stream: the input is a finite octet sequence, so no other read failure can happen.
- `byteOffset`: the parser never sets it, so every parsed instruction carries offset 0. The disassembler's offset column is modelled for any offset.
- Floating point: `SMFormatting.literalFloat` is left out. The float branch of `literalTyped` returns a `floatText` parameter. The `opConstantFloat` example is left out.
- The 19 formatters whose source is not part of this model, such as `SMDOpName` and `SMDOpDecorate`. They enter every disassembly as the `Formatters.Others` parameter. Their opcode and count guard is still modelled.
- Code generation plumbing (`SMGenerateEnumsMain`, `SMGenerateInstructionEnumMain`, `SMSources`, `SMEnumGeneration`, `SMOperandKindEnumGeneration`, and the JavaPoet parts of `SMInstructionEnumGeneration`), plus the Jackson DTOs: these are file I/O and a foreign code-emitting library.
- The generated enumerations: the instruction enumeration holds only the instructions the modelled code and its examples use. It keeps their grammar order, opcodes and operand lists, including the alias pair at opcode 5632. The value enumerations hold only the constants in declaration order, with their aliases.
- The generated `ofInteger` methods are not part of this model. The `*OfInteger` functions assume that a value shared by an alias pair resolves to the constant declared first: `MemoryAccessOfInteger(8)` gives `MakePointerAvailable`, not its KHR alias. That choice decides the name a disassembly prints.
- `ParserProperties.WordReverseParseAll`, `ParserProperties.WordReverseParseModule`, `ParserProperties.WordReverseSameWords`: stated only for streams of whole words, as the test modules are. A stream with a trailing partial word gains padding octets when reversed, so its reversed copy is one word longer. `WordReverse` assumes every read fills the buffer except the last.
- Logging (SLF4J), `BufferedWriter` flushing and the output encoding: output is a sequence of lines.
- Java integer widths: words are naturals below 2^32, and `Base.IntValue` models `Long.intValue`. Offsets are unbounded naturals rather than 64-bit longs.
- `StringEscapeUtils.escapeJava` is a library call. `Formatting.EscapeJava` models its documented behaviour:
  - quote and backslash are escaped;
  - the five control escapes are `\b`, `\t`, `\n`, `\f` and `\r`;
  - any other character outside U+0020..U+007F becomes upper-case `\uXXXX`, as two UTF-16 escapes above U+FFFF.
- UTF-8 decoding is a library call. `Utf8.Decode` decodes well-formed sequences and gives U+FFFD for malformed input, without the JDK's exact grouping of malformed bytes.
- `EnumGeneration.ToUpper`: models `Character.isUpperCase`, `isLowerCase` and `toUpperCase` only for the ASCII letters; other characters are left unchanged.
- `Strings.ConsumeUtf8`: an index past the end of the operands is an error (the sublist cannot be taken) rather than an exception.
- `Columns.DisassembleRaw`, `Columns.DisassembleRegistered`, `Disassembler.DisassembleInstruction`: require the writer to be at the start of a line, which `disassemble` ensures.
- `Disassembler.DisassembleInstruction`: the assignment and operand texts are computed before the line is appended. Both are pure, so the written text and the first failure are as in the source.
- The test classes: they are the source of the example lemmas, not part of the model.

## Findings

| source | as written | input that shows it | evidently intended | confidence | as-written member | corrected member |
|---|---|---|---|---|---|---|
| com.io7m.jspearmint.disassembly.vanilla/src/main/java/com/io7m/jspearmint/disassembly/vanilla/internal/SMDAbstractOpDisassembler.java:51-58 | the mismatch message "Expected opcode %s but received %s" is given the parsed opcode first and the formatter's own opcode second | the OpStore formatter (opcode 62) handed an instruction with opcode 61: the message says it expected 61 and received 62 | expected 62 (the formatter's opcode), received 61 (the parsed one) | not executed | Formatters.MismatchAsWritten, Formatters.MismatchAsWrittenSwapped, FormatterExamples.MismatchExample | Formatters.Mismatch, Formatters.DisassembleCorrected, Formatters.DisassembleCorrectedAgrees |
