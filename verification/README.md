# Sysmap: a verified model of its stores, pipes and parsers

Sysmap gathers static information about cluster nodes (`sysmap`), writes it as SQL scripts, imports
the scripts of many hosts into one SQLite file (`fillDB.sh`) and queries it (`sysquery`). This
project models the parts that keep state, follow a protocol or promise a round trip, and proves what
they keep over all inputs and all runs.

* **The archive.** `Text`, `Store`, `History`, `Confluence`, `Query`, `Database`,
  `Archive`, `EndToEnd`. The four tables with autoincrement numbers that may skip, every statement as a relation
  between tables (a subquery may return any matching row, an ignored insert may use up a number), and
  a run as any list of statements. The tables are shown to say exactly what the scripts said
  (`History.ImportSaysAccount`); from this follow the first-writer law, replay, independence of the
  import order and the answer to every query. `EndToEnd` composes the text of the scripts, its reading,
  the import and the query. `Database.Sqlite` runs the statements and the loops of
  `sysquery.hpp` over fields it updates.
* **The scripts.** `ExtractorSet`, `FirstWins`, `Json`, `SqlText`, `ToSql`. First-wins merging of
  findings, the event stream of the value tree and its decoder, and the text of the SQL with a reader
  for it.
* **Child processes.** `Framer`, `Framing`, `Pump`. `process_line` with its by-reference buffer, the
  select loop over three descriptors against any kernel, child and callbacks, and the exact condition
  under which a child's output arrives whole.
* **Line parsers.** `Streams`, `Regex`, `Infiniband`, `Dump`, `DumpLines`, `KernelConfig`,
  `Substrings`. A backtracking matcher for the four ibnetdiscover patterns and the state machine over
  them, the lines of a dump written out literally and what is read from them, the kernel configuration
  reader, the substring search.

Text is `string` (one character per byte). An unsigned 64-bit and a signed 32-bit number are subset
types in `Json`; `std::stoi` beyond the int range is `None` or `Overflow`. Choices that belong to the
kernel, to SQLite or to a caller's callback are nondeterministic methods or existential relations.

Functions that specify a loop are not the last word on what it does. Each main operation has a law that
does not mention them: the events of a value (`Json.EventsSerialise`), the text of a script
(`ToSql.RenderedInFull`), the printed answer place by place (`Database.ShownPrints`), the lines of a
dump as literals (`DumpLines`), a chunk as a list of lines (`Framing.ChunkLaw`), blanks, the order of
strings and first occurrences by position (`Text.BlanksAre`, `Text.LexLessIff`,
`FirstWins.FirstOfAt`).

## Where the code falls short of its intent

The model follows the code; each difference is stated with the exact condition under which the
intended property does hold.

* `process_line` ignores what follows the last newline of a chunk (execution.cc lines 256-261), and a
  last line without newline is never delivered: `Framing.DeliversWholeTextIff` and
  `Framing.DeliversEveryLineIff` for a given sequence of reads, `Framing.EveryCutDeliversIff` for a
  text under all of them, with `Framing.ChunkingMatters` and `Framing.LossyChunk` as witness.
* `UNIQUE` on `Data` alone files a payload of two extractors under the first: `Archive.RoundTripIff`
  with the empty arrays of `Archive.EmptyArrays`, in terms of what extractors found
  `EndToEnd.FindingsReturnIff`, and for the import order `Confluence.OrderIrrelevantIff` and
  `Confluence.AmbiguousImports`.
* The object of a host that was imported twice with changed data repeats a member name:
  `Query.MemberNamesUniqueIff`, `Archive.ChangedData`.
* SQL values are not escaped: `SqlText.ScriptRoundTripIff`, `ToSql.FilesRoundTripIff`,
  `SqlText.QuoteInHostname`.
* Numbers above 32 bits are written modulo 2^32 and strings end at a NUL: what is written decodes to
  the value itself exactly under the condition of `Json.WrittenInFullIff`, and
  `Json.FourGibibytes` fails it. Two keys may become one: `Json.MembersUniqueIff`,
  `Json.RepeatedMember`.
* A kernel option whose name contains `=` or begins with `#` is not read back:
  `KernelConfig.ConfigRoundTripIff`, `KernelConfig.SplitTooEarly`.
* A connectivity line above the first header has no origin: `Infiniband.CollectedResolvedIff`,
  `Dump.Orphan`.

## Model

| member | source | states |
|---|---|---|
| `Framer.ProcessLine` | lib/src/utils/execution.cc:241-281 | the callback gets, in order, the trimmed nonempty lines that the kept part of the chunk completes, or the first ones up to the refused line; the buffer ends as the untrimmed pending text |
| `Framer.DeliverTokens` | lib/src/utils/execution.cc:256-280 | the token loop stops at the first refusal and leaves the buffer empty |
| `Framer.TokensAreLines` | lib/src/utils/execution.cc:256-259 | splitting at compressed newlines carries exactly the lines of the text, continuing the pending one |
| `Framer.CompletedLinesOfLines` | lib/src/utils/execution.cc:241-281 | on terminated lines the character automaton gives just these lines, trimmed, blank ones left out |
| `Framer.ReadInTwoParts` | lib/src/utils/execution.cc:261-278 | reading a text in two parts with the pending text carried over equals reading it at once |
| `Text.BlanksAre` | lib/src/utils/execution.cc:264 | what boost::trim removes: blank, tab, line feed, vertical tab, form feed, carriage return |
| `Text.TrimTrims` | lib/src/utils/execution.cc:264 | a trimmed line is the line without the blanks around it, with no blank at either end |
| `Framing.DeliveryGrows` | lib/src/utils/execution.cc:323-335 | over any chunks the delivery is that of the concatenated kept parts, and one more chunk adds the lines it completes |
| `Framing.KeptIs` | lib/src/utils/execution.cc:249-256 | of a chunk that is used what reaches up to its last newline |
| `Framing.ChunkLaw` | lib/src/utils/execution.cc:241-281 | a chunk of terminated lines and a rest: its lines are handed out without the blanks around them, blank ones left out, the first one behind what was pending, and the rest is lost; a chunk without newline only adds to what is pending |
| `Framing.TabAndReturn` | lib/src/utils/execution.cc:263-264 | a line between a tab and a carriage return is handed out without them |
| `Framing.AlignedChunkingIrrelevant` | lib/src/utils/execution.cc:249-261 | two line-aligned ways to cut one text deliver the same lines, those of the text |
| `Framing.DeliversWholeTextIff` | lib/src/utils/execution.cc:249-261 | the delivery is the completed lines of the whole output if and only if every dropped tail that a later newline finishes is blank |
| `Framing.DeliversEveryLineIff` | lib/src/utils/execution.cc:241-281 | every line, the unterminated last one included, arrives if and only if moreover only blanks follow the last newline |
| `Framing.EveryCutDeliversIff` | lib/src/utils/execution.cc:249-261 | every way to cut a text into reads delivers its completed lines if and only if all lines completed behind its first newline are blank |
| `Framing.ChunkingMatters` | lib/src/utils/execution.cc:256-261 | a chunk with text behind its last newline, then the newline: another delivery than in one read |
| `Framing.LossyChunk` | lib/src/utils/execution.cc:256-261 | such chunks exist |
| `Pump.Kernel.Select` | lib/src/utils/execution.cc:193-201 | failure, timeout or any nonempty subset of the watched descriptors |
| `Pump.Descriptor.Reader` | lib/include/utils/execution.hpp:60-61 | a read end starts intact, nothing handed out |
| `Pump.Descriptor.Writer` | lib/include/utils/execution.hpp:63-64 | a write end starts with the whole input in its buffer |
| `Pump.Descriptor.Release` | lib/include/utils/execution.hpp:76 | the number becomes -1, nothing else changes |
| `Pump.Descriptor.Read` | lib/src/utils/execution.cc:207-210 | hands out the next 1 to 4096 bytes of what is unread; 0 only at its end |
| `Pump.Descriptor.Write` | lib/src/utils/execution.cc:211-213 | accepts a nonempty prefix of the buffer; 0 only when it is empty |
| `Pump.CallsExtendLog` | lib/src/utils/execution.cc:261-278 | one chunk's calls appended to a log keep that no call follows a refusal, and add lines to this stream only |
| `Pump.ChunkKeepsFraming` | lib/src/utils/execution.cc:323-335 | a stream's callback has seen the lines of its own chunks, whatever the other stream does |
| `Pump.Session.constructor` | lib/src/utils/execution.cc:396-398 | three descriptors wired to two line buffers, a closed stdin without input |
| `Pump.Session.Callback` | lib/src/utils/execution.cc:323-335 | a chunk goes to its stream's buffer and keeps both streams framed |
| `Pump.Session.Watch` | lib/src/utils/execution.cc:171-186 | the read set holds the open read ends, the write set the open write end, ndfs is the largest, -1 when all are closed |
| `Pump.Session.ServiceRead` | lib/src/utils/execution.cc:207-230 | one read keeps conservation and framing; the loop returns with an error exactly when the read fails, releases at end of file, and otherwise has less work left |
| `Pump.Session.ServiceWrite` | lib/src/utils/execution.cc:211-234 | one write keeps what was accepted plus what is buffered equal to the input; release only of an empty buffer, an error exactly when the write fails |
| `Pump.Session.Visit` | lib/src/utils/execution.cc:203-206 | a descriptor that is closed or not ready is passed over |
| `Pump.Session.ServiceReady` | lib/src/utils/execution.cc:202-236 | a round with a ready descriptor makes progress or returns |
| `Pump.Session.Round` | lib/src/utils/execution.cc:171-236 | one turn of the outer loop keeps all invariants, returns exactly when all is closed, a call failed or a callback refused, and otherwise uses up a timeout or some of the remaining work |
| `Pump.Session.ReadWriteChild` | lib/src/utils/execution.cc:167-238 | conservation, framing and no call after a refusal over the whole run; an error return exactly when a call failed, normal return only with all descriptors closed; ready rounds bounded by the work at the start |
| `Pump.ForEachLine` | lib/src/utils/execution.cc:312-338 | for every child, input, kernel and callbacks: normal return exactly when no select, read or write failed and no callback refused; lines are a function of each stream's own chunks, chunks and accepted input are prefixes of the texts and complete on normal return, at most output + errors + input + 3 ready rounds, whole delivery of either stream iff nothing was lost, certainly when only blank lines follow its first newline |
| `Pump.WholeOutputIff` | lib/src/utils/execution.cc:312-338 | a run nobody stopped delivers all lines of the output if and only if the reads lost nothing |
| `Streams.InputStream.GetLine` | lib/src/utils/file.cc:23-27 | takes the next line off the stream, fails only at its end |
| `Streams.LinesRoundTrip` | lib/src/utils/file.cc:32-45 | lines written with newlines are read back by the line loop |
| `Streams.LinesOfText` | lib/src/utils/file.cc:23-27 | any text is read as its terminated lines and then what follows the last newline, unless that is empty |
| `Json.ToJson` | lib/src/scalar_value.cc:9-31 | appends the events that serialise the value: Uint modulo 2^32, strings up to a NUL |
| `Json.ArrayToJson` | lib/src/array_value.cc:35-42 | appends the events of the array's document, elements in order |
| `Json.MapToJson` | lib/src/map_value.cc:49-57 | appends the events of the map's document, members in key order |
| `Json.DecodeEmit` | lib/src/map_value.cc:49-57 | decoding the stream of any document gives it back and leaves the rest |
| `Json.EmitDecode` | lib/src/array_value.cc:35-42 | only well-nested streams decode |
| `Json.ToJsonDecodes` | lib/src/scalar_value.cc:9-31 | the stream of any value decodes to the normalised value |
| `Json.EventsSerialise` | lib/src/map_value.cc:49-57 | the events themselves: a string up to its first NUL, an unsigned number modulo 2^32, elements in order between brackets, members in ascending key order between braces |
| `Json.UnsignedWritten` | lib/src/scalar_value.cc:16-19 | an unsigned number is written as its residue modulo 2^32 |
| `Json.UnsignedAlikeIff` | lib/src/scalar_value.cc:16-19 | two unsigned numbers are written alike if and only if they differ by a multiple of 2^32 |
| `Json.CStrCuts` | lib/src/scalar_value.cc:12 | a string is written up to its first NUL |
| `Json.WrittenAlikeIff` | lib/src/map_value.cc:49-57 | two values have the same stream if and only if they mean the same document |
| `Json.MembersAscend` | lib/src/map_value.cc:52-55 | object members come in weakly ascending order of their written names, for every map |
| `Json.MembersUniqueIff` | lib/src/map_value.cc:52-55 | written names are unique, and then strictly ascending, if and only if no two keys agree up to their first NUL |
| `Json.RepeatedMember` | lib/src/map_value.cc:53 | two keys that differ behind a NUL come out as one name twice |
| `Json.LiteralIff` | lib/src/scalar_value.cc:9-31 | the normalised document is the value with nothing cut or reduced if and only if no string or key has a NUL and no unsigned number reaches 2^32 |
| `Json.WrittenInFullIff` | lib/include/scalar_value.hpp:94-97 | the stream of a value decodes to the value itself under exactly this condition |
| `Json.FourGibibytes` | lib/src/extractors/memory_info_extractor.cc:19 | 2^32 bytes are written as 0 |
| `Json.LiteralAlikeIff` | lib/include/scalar_value.hpp:94-97 | the full document tells any two values apart, up to Int and Uint of equal value |
| `Json.PlainWrittenAlikeIff` | lib/src/scalar_value.cc:9-31 | on values that are written in full serialisation is injective |
| `Json.MapBuilder.Add` | lib/src/map_value.cc:14-22 | refuses null, keeps the first value of a name |
| `FirstWins.FirstOfAt` | lib/src/map_value.cc:21 | the value a key gets stands at the first position with this key |
| `ExtractorSet.Set.AddInfo` | lib/src/extractor_set.cc:11-19 | refuses null, keeps the first value of a name |
| `ExtractorSet.Set.AddByTag` | lib/src/extractor_set.cc:21-30 | adds a registered tag once, ignores unknown ones |
| `ExtractorSet.Set.Extract` | lib/src/extractor_set.cc:56-64 | the infomap becomes the first-wins merge of all findings in tag order |
| `ExtractorSet.Gather` | bin/sysmap.cc:158-176 | tags added in turn and extracted once give `Extracted` |
| `ExtractorSet.WithTagsIs` | lib/src/extractor.cc:12-19 | the extractor map is the registry restricted to the tags given |
| `ExtractorSet.SmallestTagWins` | lib/src/extractor_set.cc:56-64 | among findings in tag order the first value of a name is that of the least tag that supplies it |
| `ExtractorSet.FindingIs` | lib/src/extractor_set.cc:11-19 | within one load the first call that gives the name a value decides |
| `Text.LexLessIff` | lib/src/extractor_set.cc:58 | the order in which a std::map of strings is run through: a proper prefix, or smaller at the first difference |
| `ExtractorSet.ExtractedIs` | lib/src/extractor_set.cc:56-64 | each name is bound to the value of the least registered tag that supplies it, and to nothing when none does |
| `ExtractorSet.TagSetDecides` | lib/src/extractor_set.cc:21-30 | order, repetition and unknown tags do not matter |
| `ExtractorSet.ExtractTwice` | lib/src/extractor_set.cc:56-64 | extracting again changes nothing |
| `SqlText.MatchFilled` | lib/src/extractor_set.cc:107-131 | a quoted template filled with quote-free values reads back as these values |
| `SqlText.TextRoundTripIff` | lib/src/extractor_set.cc:107-131 | the text of any statements reads back as these statements if and only if no value has a single quote |
| `SqlText.ScriptRoundTripIff` | lib/src/extractor_set.cc:94-133 | a host's script reads back as exactly 1 + 3 times the findings statements, if and only if no string has a single quote |
| `SqlText.QuoteInHostname` | lib/src/extractor_set.cc:108 | a hostname with a quote is not read back |
| `ToSql.WriteScript` | lib/src/extractor_set.cc:94-133 | the text is the host's literal statement and then, in ascending order of the names, the three literal statements of each finding with its JSON text |
| `ToSql.WriteInfo` | lib/src/extractor_set.cc:111-132 | one finding adds its three literal statements with its JSON text |
| `ToSql.RenderedInFull` | lib/src/extractor_set.cc:99-131 | each of the four statements as literal text around hostname, name and payload, the guard of the last one included |
| `ToSql.TextIsRendered` | lib/src/extractor_set.cc:107-131 | the text built finding by finding is the rendering of the statement list |
| `ToSql.FilesRoundTripIff` | share/fillDB.sh:31 | the concatenated files read back as all statements in order if and only if no string has a single quote |
| `ToSql.SharedPayloadIff` | lib/src/extractor_set.cc:117-125 | two findings share a payload text if and only if they mean the same document, when values with different streams have different texts |
| `Database.Sqlite.constructor` | share/fillDB.sh:11-27 | a new file has four empty tables |
| `Database.Sqlite.Execute` | lib/src/extractor_set.cc:107-131 | one statement takes the tables from one state to another as SQL prescribes |
| `Database.Sqlite.Import` | share/fillDB.sh:31 | the concatenated statements are executed one after another |
| `Store.ExecRefines` | lib/src/extractor_set.cc:107-131 | a statement keeps the tables sound and adds exactly its fact, a payload being filed only once |
| `Store.RunRefines` | share/fillDB.sh:11-31 | over any run the tables are sound after every statement and say exactly what was learnt |
| `History.AccountOfHistory` | lib/src/extractor_set.cc:107-131 | the statements of all scripts amount to the account: hosts, extractors, first writers, links; every subquery finds its row |
| `History.ImportKeepsIntegrity` | share/fillDB.sh:11-31 | after every statement of every import names and payloads are unique, references resolve and no link is repeated |
| `History.ImportSaysAccount` | lib/src/extractor_set.cc:107-132 | in the end the tables say exactly the account of the scripts |
| `History.FirstWriterLaw` | share/fillDB.sh:19-23 | a payload row exists iff some script wrote the payload, and refers to the extractor that wrote it first in the whole history |
| `History.FirstWriterIs` | share/fillDB.sh:22 | the first writer is the name beside the first occurrence of the payload in the order of the scripts |
| `History.RunGrows` | lib/src/extractor_set.cc:107-131 | between any two points of a run no row is deleted or rewritten, and payloads stored later have larger numbers |
| `History.ReplayChangesNothing` | lib/src/extractor_set.cc:107-131 | replaying an imported script changes no row after any of its statements |
| `Confluence.SameFactsIsomorphic` | share/fillDB.sh:11-27 | tables that say the same are equal up to a renaming of the three kinds of number |
| `Confluence.IsomorphicIff` | share/fillDB.sh:31 | two imports end in tables equal up to numbers if and only if their scripts amount to the same account |
| `Confluence.OrderIrrelevantIff` | share/fillDB.sh:31 | all permutations of the scripts amount to the same account if and only if no payload is filed under two names by two scripts |
| `Confluence.PermutedImports` | share/fillDB.sh:31 | importing such scripts in another order gives the same four tables up to numbers |
| `Confluence.AmbiguousImports` | share/fillDB.sh:31 | otherwise some order gives tables that no renaming makes equal |
| `Database.Sqlite.GetDids` | lib/include/sysquery.hpp:43-51 | the payload numbers of a host in some order, none twice when links are sound |
| `Database.Sqlite.GetHostIds` | lib/include/sysquery.hpp:37-73 | the wanted hosts, or all, each with its payload numbers |
| `Database.Sqlite.GetEids` | lib/include/sysquery.hpp:83-107 | each extractor number as often as its name is wanted |
| `Database.Sqlite.GetData` | lib/include/sysquery.hpp:144-162 | the payload of the row with both numbers, empty when there is none |
| `Database.Sqlite.QueryToJson` | lib/include/sysquery.hpp:119-186 | prints, place by place, one object per host in order of its number, with the entries of the wanted extractors |
| `Database.Sqlite.Answer` | bin/sysquery.cc:114-123 | what is printed shows an answer to the query and prints exactly what any facts that the tables state say |
| `Database.OutputTellsAnswer` | lib/include/sysquery.hpp:164-184 | different answers are written differently, for names without NUL |
| `Database.AnswerShown` | lib/include/sysquery.hpp:164-184 | place by place: an opening brace, for each host its name, a brace, for each entry the extractor as key and then the payload as raw value, a brace, and a closing brace |
| `Database.ShownPrints` | lib/include/sysquery.hpp:164-184 | between the braces of a host stands each pair of name and payload as often as the name is asked for if the host carries the payload under it, and nothing else, and the hosts are exactly the wanted ones, each once |
| `Query.EntriesInOrder` | lib/include/sysquery.hpp:169-181 | the entries come extractor by extractor and within one payload by payload, and are all that is found |
| `Query.HostObjectLaw` | lib/include/sysquery.hpp:169-181 | an object holds a pair exactly when the host carries the payload and it is filed under the name, as often as the name is wanted |
| `Query.QueryLaw` | lib/include/sysquery.hpp:37-186 | every wanted host has one object, possibly empty, no other host has one, and each object holds just what the host holds |
| `Query.MemberNamesUniqueIff` | lib/include/sysquery.hpp:169-181 | the member names of a host's object are unique if and only if the host holds one payload per wanted extractor and none is wanted twice |
| `Archive.FirstWriterAnswer` | lib/include/sysquery.hpp:119-186 | after any import the unfiltered query gives each host one entry per distinct payload it ever carried, under the payload's first writer in the whole history |
| `Archive.RoundTripIff` | share/fillDB.sh:19-23 | the query returns exactly the written pairs of every host, each once, if and only if no payload occurs under two names |
| `Archive.TwoNamesOneLost` | share/fillDB.sh:22 | with a payload under two names, a pair that was written is not recorded |
| `Archive.EmptyArrays` | share/fillDB.sh:22 | two extractors that each wrote `[]` on any hosts: no query returns what was written |
| `Archive.ChangedData` | lib/include/sysquery.hpp:169-181 | a host imported again with other data for an extractor: its object repeats the name |
| `Archive.FilterHosts` | lib/include/sysquery.hpp:58-72 | the filtered query has an object for exactly the wanted hosts of the unfiltered one |
| `Archive.FilterOrder` | lib/include/sysquery.hpp:164-168 | and in the same order |
| `Archive.FilterEntries` | lib/include/sysquery.hpp:92-106 | its entries are those of the unfiltered query with a wanted extractor, once per mention |
| `Archive.ImportAndQuery` | share/fillDB.sh:11-31 | importing and then querying prints exactly what the account of all scripts says |
| `EndToEnd.FindingsReturnIff` | lib/src/extractor_set.cc:94-133 | the files of any nodes, read, imported by any run and queried unfiltered return every finding's JSON text under its name, once, for its host, and nothing else, if and only if no two names carry values that mean the same document |
| `EndToEnd.OneNameIff` | lib/src/extractor_set.cc:111-125 | one name per payload text is one name per meaning |
| `EndToEnd.Gathered` | share/fillDB.sh:29-31 | writing, concatenating, reading, importing and querying in a row give such an answer |
| `Regex.MatchWritten` | lib/src/linux/infiniband_extractor.cc:22-28 | a line written in a form that leaves no choice matches with exactly its fields, whatever the blanks |
| `Regex.MatchCaptures` | lib/src/linux/infiniband_extractor.cc:22-28 | every capture lies in its class and has its least length |
| `Infiniband.AtMostOneForm` | lib/src/linux/infiniband_extractor.cc:32-48 | no line matches two of the four patterns, so the order of the tests is irrelevant |
| `Infiniband.Collect` | lib/src/linux/infiniband_extractor.cc:16-52 | the line loop computes the scan of the lines, or stops at a number out of range |
| `Infiniband.ScanLaw` | lib/src/linux/infiniband_extractor.cc:18-51 | connections match the connectivity lines one to one in order, each from the guid of the nearest header above it; the first record of a guid stays |
| `Infiniband.NearestGuidIs` | lib/src/linux/infiniband_extractor.cc:33-41 | the current guid is that of a header with none below it, empty before the first |
| `Infiniband.KeysAreGuids` | lib/src/linux/infiniband_extractor.cc:73-93 | every key is the guid of its record, and the record is the first with this guid |
| `Infiniband.CollectedResolvedIff` | lib/src/linux/infiniband_extractor.cc:30-51 | for every text that is collected: every connection starts at a known switch or host if and only if no connectivity line precedes the first header |
| `Infiniband.ReadGuids` | lib/src/linux/infiniband_extractor.cc:65-89 | a header read from a line has a nonempty guid |
| `Infiniband.ReadWritten` | lib/src/linux/infiniband_extractor.cc:54-160 | a record written in its form is read back with trimmed texts, or raises an error when a number exceeds an int |
| `DumpLines.ReadSwitchLine` | lib/src/linux/infiniband_extractor.cc:22 | a literal Switch line is read field by field; a number from 2^31 on raises an error |
| `DumpLines.ReadHostLine` | lib/src/linux/infiniband_extractor.cc:26 | so is a literal Ca line |
| `DumpLines.ReadSwitchPortLine` | lib/src/linux/infiniband_extractor.cc:24 | so is a connection of a switch without the guid in parentheses |
| `DumpLines.ReadNamedPortLine` | lib/src/linux/infiniband_extractor.cc:24 | and with it |
| `DumpLines.ReadHostPortLine` | lib/src/linux/infiniband_extractor.cc:28 | and a connection of a host |
| `DumpLines.ReadOtherLine` | lib/src/linux/infiniband_extractor.cc:50 | lines that are empty or begin otherwise are ignored |
| `DumpLines.ExcerptCollected` | lib/src/linux/infiniband_extractor.cc:16-52 | the text of a switch, a host and the connection of the host is collected to just these, the connection starting at the host |
| `Dump.DumpRead` | lib/src/linux/infiniband_extractor.cc:30-51 | reading a printed dump recovers its records line by line, other lines included |
| `Dump.FabricRoundTrip` | lib/src/linux/infiniband_extractor.cc:16-52 | printing any listing of a fabric and collecting the text gives the fabric back |
| `Dump.ReadIsNormal` | lib/src/linux/infiniband_extractor.cc:54-160 | whatever is read from a line has its texts trimmed and in their classes and its numbers in range |
| `Dump.WholeListingLists` | lib/src/linux/infiniband_extractor.cc:30-51 | every sound fabric has a listing of records that can be printed |
| `Dump.PrintoutCollected` | lib/src/linux/infiniband_extractor.cc:16-52 | printing any sound fabric and collecting the text recovers its switches, hosts and connections |
| `Dump.CollectedFabrics` | lib/src/linux/infiniband_extractor.cc:16-52 | a fabric is collected from some text if and only if its keys are the guids of its records, its texts are clean, its numbers in range, and its connections without an origin come first |
| `Dump.Orphan` | lib/src/linux/infiniband_extractor.cc:18 | a text whose only connection starts nowhere |
| `KernelConfig.CollectKernelConfig` | lib/src/linux/kernel_extractor.cc:67-103 | the entries of the lines that are not empty, not comments and contain '=' |
| `KernelConfig.ParseIs` | lib/src/linux/kernel_extractor.cc:71-82 | a line gives an entry exactly when it is the name, the first equals sign and the value, and does not begin with a number sign |
| `KernelConfig.EntryRoundTripIff` | lib/src/linux/kernel_extractor.cc:71-82 | a printed entry is read back if and only if its name has no '=' and no leading '#' |
| `KernelConfig.ConfigRoundTripIff` | lib/src/linux/kernel_extractor.cc:67-85 | printed entries among skipped lines are recovered in order if and only if all names are such |
| `KernelConfig.SplitTooEarly` | lib/src/linux/kernel_extractor.cc:73-80 | a name with `=` is cut at it |
| `KernelConfig.LoadConfig` | lib/src/extractors/kernel_extractor.cc:24-29 | the map is the first-wins merge of the entries |
| `KernelConfig.LoadedFirst` | lib/src/map_value.cc:21 | each name is bound to its first value |
| `KernelConfig.ConfigLoaded` | lib/src/extractors/kernel_extractor.cc:24-29 | from the text to the map: each plain name has the value it had first |
| `KernelConfig.LoadModules` | lib/src/extractors/kernel_extractor.cc:32-41 | the array value has one map per kernel module, in order |
| `KernelConfig.ModulesWritten` | lib/src/array_value.cc:35-42 | its stream decodes to one object per module with the members Loaded, Name and Size in this order |
| `Substrings.ForEachSubstring` | lib/src/utils/file.cc:75-87 | true exactly when some nonempty contiguous part satisfies the predicate; parts are tried in order, at most n(n+1)/2, all of them on failure |
| `Substrings.AllParts` | lib/src/utils/file.cc:77-79 | the search order lists each of the n(n+1)/2 parts once |
| `Substrings.SomePartGrows` | lib/src/utils/file.cc:75-87 | what is found in a string is found in every string around it |
| `Substrings.SomePartOfConcat` | lib/src/utils/file.cc:75-87 | joining two strings adds exactly the parts across the joint |
| `Substrings.Categorise` | lib/src/linux/filesystem_extractor.cc:57-66 | LOCAL exactly for names that begin with "/dev/", else REMOTE exactly when some part is an address, else MISC |
| `Substrings.RemoteStays` | lib/src/linux/filesystem_extractor.cc:57-66 | a longer name around a remote one is never MISC |

## Left out

- Processes: fork, exec, pipes, waitpid, the exit status, the program search, the environment and the closing of descriptors in destructors; the pump takes the child's output and the kernel's behaviour as arbitrary.
- Pump.Kernel.Select: the number of timeouts of one run is arbitrary but finite, so that the loop terminates; of a child that is silent for ever the model has every finite part, as a run in which select fails in the end.
- Pump.Session.ServiceReady: the loop over the array of three descriptors is written out as three visits in the same order.
- Pump.ForEachLine: the success flag, which only reports the child's exit status, is not returned; the overloads with fewer arguments only fix the error callback (one of them refuses every line) and are not modelled separately.
- History.ImportSaysAccount: supposes extractor names without NUL, as all registered names are; toSQL stores a name as a C string and looks it up in full, and the two agree for such names.
- SQLite itself: SQL is modelled for the statements that occur, rows come in any order, a scalar subquery returns any matching row, and values with a single quote are covered only by the reading of the text.
- ToSql.WriteScript: the hostname is a parameter (get_hostname asks the system), and the text rapidjson makes of an event stream is the parameter `jsonText`.
- ToSql.SharedPayloadIff: supposes that rapidjson writes two values with different event streams as different texts; of other event sequences it supposes nothing.
- Json.ToJson: the text of a double is an opaque token; the XML and YAML output only calls foreign emitters.
- Extractor_Set::write: format dispatch, whose SQL case falls through to an exception after writing.
- Extractor_Set::add and add_extractor: the same first-wins insertion as add_by_tag, with the extractor passed in.
- Infiniband.Collect: fields of a connection that its kind of line does not set are uninitialised in the source and do not exist in the model; the file name is fixed there and a parameter here; std::stoi out of range ends the program by an uncaught exception, here the result is None.
- Regex.MatchWritten: std::regex is modelled for the constructs that the four patterns use, with greedy backtracking and `$` only at the end of the line.
- KernelConfig.CollectKernelConfig: finding the file and decompressing it; the parsing of /proc/modules is not modelled, the loading of its result is.
- Substrings.Categorise: is_ip is a parameter; the sizes a mount point reports come from system calls.
- Other extractors (hwloc, disks, swap, network, PCI, memory, lscpu): reading and copying of fields.
- The Python tools, the ArangoDB client, drawing of graphs, command lines and logging: network and user interface.
