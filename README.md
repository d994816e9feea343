# touchstone-registry in Dafny

A model of the core of touchstone-registry, a Go service that classifies terms against public registries. A term is a surname, a first name, a company name, a town or an identifier. The model covers:

- the term-classification engine: dictionaries loaded from CSV rows or defined by named regular expressions with a checksum validator (IBAN MOD 97-10, Luhn, French NIR), normalizers, and a registry that queries every loaded dictionary in ascending id order under jurisdiction, type and dictionary filters;
- the transport-agnostic endpoint layer: classify a term, classify a batch of up to 100 terms, list the dictionaries, the MCP tool argument decoding, middleware `Chain` and the typed request-context keys;
- the MCP-over-QUIC protocol rules: the `MCP1` handshake, the error-code vocabulary, `ServeConn` from stream acceptance through the newline-framed read loop, the session object and the ALPN filter of `Listener.Serve`;
- the dual-transport chassis: TLS selection in `New`, the security and `Alt-Svc` headers, the ALPN switch and the accept loop of `Start`, and the first-error fold of `Stop`;
- the bulk importers: the adapter registry, the `import_sources` table (a map keyed by adapter id), and the row filtering and aggregation of the seven source parsers (SIRENE, Companies House, INSEE communes, prenoms and patronymes, US Census surnames, SSA baby names).

Code that works by updating state becomes Dafny methods with loops, and classes whose `modifies` clauses name what they change. Each such method is proved equal to a specification function. The promised properties are lemmas about those functions:

- last-write-wins tables;
- sums per key and the first or first-non-empty tag;
- sorted, duplicate-free listings;
- filter admission;
- round trips: the magic bytes read back, framed messages split back into lines, hex codes read back, the advertised port read back, and decimal frequencies read back by the integer scanner.

Modules, one per source file, plus shared helpers:

- Wrappers: Option/Result.
- Text: the `strings` and `strconv` behaviour used.
- Order: byte-wise string order and sorted key lists.
- Csv: the outcome of one CSV read.
- Upsert: the generic last-write-wins fold and per-key aggregation behind every loader.
- ImportRows: header and row plumbing shared by the importers.
- Streams: a QUIC stream as a reader over input bytes and a writer.

Inputs the Go code obtains by I/O are parameters of the model:

- file contents as CSV read outcomes or lines;
- the directory listing;
- whether `data.gob` exists and decodes;
- the regular-expression compiler;
- the set of charsets `htmlindex` knows;
- TLS loader results;
- the clock value;
- the random bytes of a session id;
- the `HandleMessage` and `json.Marshal` functions;
- whether writes fail and whether `RegisterSession` succeeds;
- the accept results of a listener.

The registry's directory scan is stated for any dictionary loader. `Load` passes the model of `LoadDictionary`, so the lemmas about the scan hold for it.

## Model

| member | source | states |
|---|---|---|
| DictManifest.LoadManifest | pkg/dict/manifest.go:50-66 | read and parse failures pass through with no manifest; an empty id is rejected; an empty data_file becomes "data.csv"; every other field is returned unchanged |
| Normalize.GetNormalizer | pkg/dict/normalize.go:36-47 | "lowercase_utf8" and "none" select their normalizers; every other mode, "" included, selects NormalizeLowercaseASCII |
| Normalize.LowercaseUtf8Of | pkg/dict/normalize.go:25-27 | lowercasing keeps the length, and keeps every character that is not an upper-case letter, accented ones included |
| Normalize.Apply | pkg/dict/normalize.go:19-32 | NormalizeNone returns its input unchanged; NormalizeLowercaseUTF8 keeps the length |
| Normalize.EmptyStaysEmpty | pkg/dict/normalize.go:19-32 | every normalizer maps "" to "" |
| Normalize.LowercaseAsciiOnAscii | pkg/dict/normalize.go:19-22 | on ASCII input NormalizeLowercaseASCII is ASCII lowercasing and leaves no upper-case letter |
| Normalize.StripAccentsIdempotent | pkg/dict/normalize.go:16 | stripping accents twice is stripping them once |
| Normalize.StripAccentsConcat | pkg/dict/normalize.go:16 | accent stripping works character by character: it distributes over concatenation |
| Normalize.LowerStripCommute | pkg/dict/normalize.go:19-22 | stripping accents from lower-cased text leaves it lower case |
| Normalize.LowercaseAsciiIdempotent | pkg/dict/normalize.go:19-22 | a key normalized with NormalizeLowercaseASCII normalizes to itself |
| Normalize.ApplyIdempotent | pkg/dict/normalize.go:19-47 | every normalizer is idempotent, so a stored normalized key looks itself up |
| Pattern.ValidatorNamed | pkg/dict/pattern.go:36-47 | "", "mod97", "luhn" and "nir" name a validator (none for ""); any other name is unknown |
| Pattern.CompileEach | pkg/dict/pattern.go:29-50 | success iff every spec's regex compiles and names a known validator; then the list keeps the specs' length, order and names; otherwise the error of the first spec that fails, regex checked before validator |
| Pattern.CompilePatterns | pkg/dict/pattern.go:24-51 | the loop equals CompileAll; an empty spec list is the "no patterns" error |
| Pattern.FirstProblem | pkg/dict/pattern.go:30-47 | when spec i is the first with a problem, compilation fails with that spec's problem |
| Pattern.CharDigits | pkg/dict/pattern.go:80-83 | a digit writes itself and a letter writes the two digits of 10..35, read back as the character's value |
| Pattern.Expand | pkg/dict/pattern.go:78-87 | the string the builder receives is all decimal digits |
| Pattern.ExpandValue | pkg/dict/pattern.go:78-90 | parsing the built decimal string gives the MOD 97-10 number of the rearranged IBAN |
| Pattern.ExpandDigits | pkg/dict/pattern.go:78-87 | the character loop fails iff some character is not an upper-case letter or digit, and otherwise builds Expand |
| Pattern.ValidateMod97 | pkg/dict/pattern.go:70-95 | true iff the length is at least 5, the rearranged upper-cased string is alphanumeric, and its number is 1 modulo 97 |
| Pattern.ParitySumFromRight | pkg/dict/pattern.go:103-117 | the left-to-right parity sum equals the Luhn sum from the right that doubles every second digit and not the last |
| Pattern.ValidateLuhn | pkg/dict/pattern.go:98-120 | true iff the string is non-empty, all digits, and its Luhn sum is a multiple of 10 |
| Pattern.CorsicaBody | pkg/dict/pattern.go:141-143 | the "2A"→"19" and "2B"→"20" substitutions keep the body's length |
| Pattern.ParseDigits | pkg/dict/pattern.go:133-138 | the accumulation loop fails iff a character is not a digit, and otherwise yields the decimal value |
| Pattern.ValidateNir | pkg/dict/pattern.go:125-155 | true iff the length is 15, the key is two digits, the substituted body is all digits, and key = 97 - body mod 97 |
| Pattern.NirKeyRange | pkg/dict/pattern.go:153-154 | the key of an accepted NIR lies in 1..97 |
| Pattern.RunValidator | pkg/dict/pattern.go:60 | running a pattern's validator gives that validator's predicate, and true when there is none |
| Pattern.FirstAccepting | pkg/dict/pattern.go:56-65 | the index of the first pattern whose regex matches and whose validator agrees, with none before it; or none at all |
| Pattern.Match | pkg/dict/pattern.go:54-66 | the scan removes every space, returns the name of the first accepting pattern in spec order, and ("", false) when none accepts |
| Pattern.MatchIgnoresSpaces | pkg/dict/pattern.go:55 | inserting a space anywhere in a term does not change the match |
| Dict.Lookup | pkg/dict/dict.go:190-193 | found iff the normalized term is a key of the table, and then the entry stored under it |
| Dict.Classify | pkg/dict/dict.go:71-80 | a pattern dictionary answers iff some pattern accepts, with metadata exactly {"pattern": that pattern's name}; any other dictionary answers as Lookup |
| Dict.IsUtf8Name | pkg/dict/dict.go:200-203 | with dashes removed and case folded, the encoding name is "utf8" or empty |
| Dict.TrimmedHeader | pkg/dict/dict.go:114-116 | the trimmed header has the header's length and each name trimmed |
| Dict.TrimHeader | pkg/dict/dict.go:114-116 | the in-place trimming loop yields TrimmedHeader |
| Dict.ColumnIndex | pkg/dict/dict.go:123-129 | the first header position holding the name, and none iff the name is absent |
| Dict.FindColumn | pkg/dict/dict.go:123-129 | the header scan stops at ColumnIndex |
| Dict.KeyIndex | pkg/dict/dict.go:119-133 | an error iff a key column is set, a header exists, and the name is not in it; otherwise its first position, or 0 with no key column or no header |
| Dict.MetaIndexKeys | pkg/dict/dict.go:136-146 | a metadata name is resolved iff a header exists and some column for it is in the header; unresolvable columns are dropped |
| Dict.ResolveMetadata | pkg/dict/dict.go:136-146 | the resolution loop yields MetaIndex: a later column with the same logical name wins |
| Dict.MetadataOf | pkg/dict/dict.go:167-175 | metadata is non-nil iff some metadata column resolved, and then holds exactly the names whose column is in range in this row |
| Dict.BuildMetadata | pkg/dict/dict.go:167-175 | the metadata loop yields MetadataOf |
| Dict.ReadRow | pkg/dict/dict.go:158-175 | one row writes nothing when the key index is out of range or the normalized trimmed key is empty, and otherwise that key with the row's metadata |
| Dict.FillEntries | pkg/dict/dict.go:148-180 | an unreadable row aborts the load; otherwise the table is the last-write-wins fold of the rows and the collision count is the number of overwrites |
| Dict.LoadCsv | pkg/dict/dict.go:82-187 | the load equals LoadCsvOf: encoding check, then header, key column, metadata columns and rows, with each failure reported as it arises |
| Dict.CsvKeys | pkg/dict/dict.go:158-165 | a key is loaded iff some readable row has the key index in range and normalizes its trimmed key cell to it (non-empty) |
| Dict.LastRowWins | pkg/dict/dict.go:176-179 | for a repeated key the last row that writes it supplies the stored entry |
| Dict.CsvMetadataShape | pkg/dict/dict.go:167-175 | every loaded entry has metadata iff some metadata column resolved, and holds only resolved names |
| Dict.CsvCollisions | pkg/dict/dict.go:176-179 | distinct keys plus collisions equals the number of rows that wrote an entry |
| Dict.DictionaryOf | pkg/dict/dict.go:30-68 | a manifest without an id fails the load; a loaded dictionary carries its manifest and the normalizer the manifest names; it has patterns iff the import method is "pattern", and then at least one pattern and no entries; a data failure is reported under the manifest's id |
| Dict.LoadDictionary | pkg/dict/dict.go:30-68 | the load equals DictionaryOf |
| Dict.GobTakesPriority | pkg/dict/dict.go:53-60 | when data.gob exists the CSV files play no part in the result |
| Dict.StoredKeysFindThemselves | pkg/dict/dict.go:190-193 | every key loaded from CSV is found by looking the key itself up |
| DictRegistry.LoadEntries | pkg/dict/registry.go:33-47 | the scan keeps dictionaries keyed by their manifest id and only adds keys; a failure is a dictionary failure |
| DictRegistry.LoadAllOf | pkg/dict/registry.go:27-53 | a listing failure is an error; a successful load is keyed by manifest id |
| DictRegistry.LoadEntriesKeys | pkg/dict/registry.go:34-46 | an id is loaded iff it was there before or some directory holding a manifest loads a dictionary with that id |
| DictRegistry.LoadEntriesFails | pkg/dict/registry.go:42-45 | the scan fails exactly when some loadable entry's dictionary fails |
| DictRegistry.LoadEntriesFirstFailure | pkg/dict/registry.go:42-45 | a failed scan reports the first loadable entry that fails, with its name and its loader's error, and every loadable entry before it loads |
| DictRegistry.Hit | pkg/dict/registry.go:102-131 | a dictionary contributes a match iff it passes the filters and its own Classify succeeds; the match copies id, jurisdiction, type and metadata |
| DictRegistry.ClassifyOf | pkg/dict/registry.go:84-138 | the result always echoes the term |
| DictRegistry.MatchesFromHits | pkg/dict/registry.go:100-131 | every match comes from a visited dictionary that hits |
| DictRegistry.HitsInMatches | pkg/dict/registry.go:100-131 | every visited dictionary that hits gives one of the matches |
| DictRegistry.MatchesOverSorted | pkg/dict/registry.go:94-131 | visiting ids in ascending order gives matches in strictly ascending dictionary-id order |
| DictRegistry.ClassifyAscending | pkg/dict/registry.go:94-131 | Classify's matches are in strictly ascending dictionary-id order |
| DictRegistry.ClassifyMatches | pkg/dict/registry.go:100-131 | a loaded dictionary appears among the matches iff it passes the filters and classifies the term |
| DictRegistry.ClassifyMatchFields | pkg/dict/registry.go:112-124 | a match naming a loaded dictionary carries its id, jurisdiction and entity type and the metadata of the entry the term classified to |
| DictRegistry.NormalizedNoHit | pkg/dict/registry.go:119-121 | with no hit among the visited dictionaries the normalization stays empty |
| DictRegistry.NormalizedSticks | pkg/dict/registry.go:119-121 | once the normalization is non-empty, later dictionaries do not change it |
| DictRegistry.NormalizedFirstHit | pkg/dict/registry.go:119-121 | the first hitting dictionary's non-empty normalization is the one reported |
| DictRegistry.ClassifyNormalizedNoHit | pkg/dict/registry.go:134-136 | with no dictionary hitting there are no matches and the normalization is NormalizeLowercaseASCII of the term |
| DictRegistry.ClassifyNormalizedFirst | pkg/dict/registry.go:119-136 | Classify reports the normalization of the first hitting dictionary in id order when it is non-empty |
| DictRegistry.ClassifyStep | pkg/dict/registry.go:100-131 | one more visited dictionary appends its match, if any, and sets the normalization only while it is empty |
| DictRegistry.InfoOf | pkg/dict/registry.go:159-168 | a listing carries the manifest's id and the number of entries |
| DictRegistry.ListOf | pkg/dict/registry.go:153-172 | one info per dictionary, in strictly ascending id order, covering every loaded id |
| DictRegistry.Registry.constructor | pkg/dict/registry.go:19-24 | a new registry holds no dictionaries |
| DictRegistry.Registry.Load | pkg/dict/registry.go:27-53 | on success the table is replaced as a whole by the new load; on any failure the error is returned and the previous table is kept |
| DictRegistry.Registry.Classify | pkg/dict/registry.go:84-138 | the filtering and matching loop over the sorted ids equals ClassifyOf |
| DictRegistry.Registry.ListDicts | pkg/dict/registry.go:153-172 | the listing loop equals ListOf |
| DictRegistry.Registry.DictCount | pkg/dict/registry.go:175-179 | as many as the listing has |
| DictRegistry.Registry.TotalEntries | pkg/dict/registry.go:182-190 | the sum of the listed entry counts, 0 for an empty registry |
| DictRegistry.Filter | pkg/dict/registry.go:102-112 | the three filter checks (jurisdictions, types, dictionary ids) admit a dictionary exactly when Admits does |
| DictRegistry.Contains | pkg/dict/registry.go:192-199 | true iff the slice holds the string |
| Order.Insert | pkg/dict/registry.go:94-98 | inserting a new id into a strictly sorted list gives a strictly sorted list of the old ids and the new one |
| Order.SortedIds | pkg/dict/registry.go:94-98 | the ids of a set as a strictly ascending list holding exactly that set |
| Order.SortedKeys | pkg/dict/registry.go:94-98 | the sorted key list is the unique strictly ascending list of the map's keys |
| Upsert.FoldKeys | pkg/dict/dict.go:176-179 | a key is in the filled table iff it was there before or some row writes it |
| Upsert.FoldLastWins | pkg/dict/dict.go:176-179 | a key's value is the one its last writing row gave |
| Upsert.FoldFrom | pkg/dict/dict.go:176-179 | every value of a table built from nothing was written by some row |
| Upsert.FoldUntouched | pkg/dict/dict.go:176-179 | a key no row writes keeps its earlier value |
| Upsert.FoldPreserves | pkg/dict/dict.go:176-179 | a property of every earlier and every written value holds for every value of the table |
| Upsert.CollisionsAccount | pkg/dict/dict.go:176-179 | every written row either adds a key or is counted as a collision |
| Upsert.AggregateSpec | pkg/importer/adapter_insee_prenoms.go:147-154 | a key is aggregated iff some row counts for it; its total is the sum of its rows' counts and its tag the one the rule picks |
| Kit.WrapFromLastIsNest | pkg/kit/endpoint.go:17-19 | the backwards loop wraps the others so that others[0] is outermost |
| Kit.NestSnoc | pkg/kit/endpoint.go:17-19 | the last of the others wraps the endpoint directly |
| Kit.NestAppend | pkg/kit/endpoint.go:17-19 | nesting a concatenation is nesting one list inside the other |
| Kit.ChainNests | pkg/kit/endpoint.go:15-22 | Chain(outer, others)(e) is outer around the others around e |
| Kit.ChainAlone | pkg/kit/endpoint.go:15-22 | Chain(a)(e) == a(e) |
| Kit.ChainOfThree | pkg/kit/endpoint.go:15-22 | Chain(a, b, c)(e) == a(b(c(e))) |
| Kit.GetTransport | pkg/kit/context.go:34-39 | the stored transport, or "http" when none is set |
| Kit.EmptyContextDefaults | pkg/kit/context.go:18-55 | on an empty context the user, handle, request and trace ids are "" and the transport is "http" |
| Kit.WithUserId | pkg/kit/context.go:15-21 | GetUserID reads back what was set, and every other key is unchanged |
| Kit.WithHandle | pkg/kit/context.go:23-29 | GetHandle reads back what was set, and every other key is unchanged |
| Kit.WithTransport | pkg/kit/context.go:31-39 | GetTransport reads back what was set, and every other key is unchanged |
| Kit.WithRequestId | pkg/kit/context.go:41-47 | GetRequestID reads back what was set, and every other key is unchanged |
| Kit.WithTraceId | pkg/kit/context.go:49-55 | GetTraceID reads back what was set, and every other key is unchanged |
| Api.ClassifyTermEndpoint | pkg/api/endpoints.go:33-38 | the registry's Classify of the request's term and options, never an error |
| Api.BatchCheck | pkg/api/endpoints.go:43-48 | no error iff there are 1..100 terms; zero terms is the empty error, more than 100 the too-many error with the count |
| Api.ClassifyBatchEndpoint | pkg/api/endpoints.go:40-55 | an error for 0 or more than 100 terms; otherwise one result per term, results[i] = Classify(terms[i], opts), in input order |
| Api.ListDictsEndpoint | pkg/api/endpoints.go:57-61 | the registry's ListDicts, one per dictionary, never an error |
| Api.ParseArgs | pkg/api/mcp.go:110-119 | the decoded argument object, or an empty map when the arguments are absent or not an object |
| Api.StringArg | pkg/api/mcp.go:37 | the argument's string, or "" when it is absent or not a string |
| Api.FilterList | pkg/api/mcp.go:124-126 | no filter for ""; otherwise the untrimmed comma split, which joins back to the value and has one piece more than there are commas |
| Api.ParseMcpOpts | pkg/api/mcp.go:122-134 | the options are always present, each list being FilterList of its string argument |
| Api.NoFiltersAdmitAll | pkg/api/mcp.go:122-134 | without filter arguments the parsed options admit every dictionary, as no options do |
| Api.DecodeTermRequest | pkg/api/mcp.go:35-42 | the "term" string (or "") with the parsed options |
| Api.DecodeBatchRequest | pkg/api/mcp.go:59-73 | the comma split of "terms", each piece trimmed, in order; more than 100 pieces is an error naming the count |
| Api.MissingTermsIsOneEmptyTerm | pkg/api/mcp.go:61-65 | a missing "terms" decodes to one empty term, which the batch bounds accept |
| Api.McpTool | pkg/api/mcp.go:91-107 | the schema type is "object", properties are present iff given, and required is present iff non-empty |
| Api.ToolsWellFormed | pkg/api/mcp.go:21-88 | the three tools have distinct names, their required arguments are declared properties, and list_dicts takes no arguments |
| QuicErrors.StreamCodeOf | pkg/mcpquic/errors.go:11-15 | the inverse of the stream-code values 0x00, 0x02 and 0x03, so these are pairwise distinct |
| QuicErrors.ConnCodeOf | pkg/mcpquic/errors.go:18-22 | the inverse of the connection-code values 0x00, 0x01 and 0x03, so these are pairwise distinct |
| QuicErrors.SentinelMessage | pkg/mcpquic/errors.go:24-28 | each sentinel error has a non-empty message |
| QuicErrors.SentinelsDistinct | pkg/mcpquic/errors.go:24-28 | the three sentinel errors have distinct messages |
| QuicErrors.ConnectionErrorString | pkg/mcpquic/errors.go:36-38 | "connection ", the address, " error code 0x", the code as at least two lower-case hex digits, ": " and the wrapped error's message |
| QuicErrors.Unwrap | pkg/mcpquic/errors.go:40 | the wrapped error, whose message ends the rendered string |
| QuicErrors.ConnectionErrorCodeReadsBack | pkg/mcpquic/errors.go:36-38 | the hex digits in the rendered string read back as the code |
| Streams.NextLine | pkg/mcpquic/server.go:81-89 | a line exists iff the input holds '\n'; the input is the line, the '\n' and the rest, and the line holds no '\n' |
| Streams.Stream.ReadFull | pkg/mcpquic/magic.go:13 | exactly n bytes are consumed and returned, or the read fails and consumes what there was |
| Streams.Stream.ReadLine | pkg/mcpquic/server.go:79-89 | reading a line consumes and returns NextLine of the unread input |
| Streams.Stream.Write | pkg/mcpquic/server.go:106 | a write appends all of the data, or fails and appends nothing |
| Magic.Wrapped | pkg/mcpquic/magic.go:16-18 | a mismatch, and only a mismatch, wraps ErrInvalidMagicBytes |
| Magic.MagicCheck | pkg/mcpquic/magic.go:11-20 | success iff the first four bytes are "MCP1"; fewer than four is a read failure distinct from a mismatch; a mismatch reports the bytes read; four bytes are consumed and the rest stays unread |
| Magic.ValidateMagicBytes | pkg/mcpquic/magic.go:11-20 | reading and comparing four bytes gives MagicCheck of the stream's input |
| Magic.SendMagicBytes | pkg/mcpquic/magic.go:24-29 | exactly "MCP1" is written, or the write failure is reported and nothing is written |
| Magic.SentMagicValidates | pkg/mcpquic/magic.go:11-29 | validating what SendMagicBytes put in front of a stream succeeds and leaves the rest unread |
| Magic.MagicCheckPrefix | pkg/mcpquic/magic.go:12-13 | the outcome depends on the first four bytes only; later bytes stay unread |
| QuicServer.SessionIdOf | pkg/mcpquic/server.go:37-41 | "quic_" followed by 8 lower-case hex characters from 4 random bytes |
| QuicServer.SessionIdInjective | pkg/mcpquic/server.go:37-41 | different random bytes give different session ids |
| QuicServer.Lines | pkg/mcpquic/server.go:79-89 | the lines read from the input, none of which holds '\n' |
| QuicServer.LinesOfFrame | pkg/mcpquic/server.go:79-92 | messages written one per line split back into exactly those messages, whatever fragment follows |
| QuicServer.LineSplitsAtFirstNl | pkg/mcpquic/server.go:81-89 | a line without '\n' followed by '\n' is the next line read |
| QuicServer.LoopOf | pkg/mcpquic/server.go:80-110 | the loop dispatches at most one message per line |
| QuicServer.LoopDispatchesAll | pkg/mcpquic/server.go:80-110 | when writes succeed every non-empty line is dispatched in order, and the replies are the encoded responses, each followed by '\n' |
| QuicServer.LoopStopsAtFailedWrite | pkg/mcpquic/server.go:106-109 | when writes fail nothing is written, and only the last dispatched message can have had a reply: the loop stops at the first failed write |
| QuicServer.HandleLine | pkg/mcpquic/server.go:94-109 | a nil response or a marshal failure writes nothing; otherwise the document plus '\n' is written, or the write fails |
| QuicServer.ServeMessage | pkg/mcpquic/server.go:94-109 | one dispatched line advances the loop as LoopOf prescribes |
| QuicServer.ServeNextLine | pkg/mcpquic/server.go:80-110 | one turn of the loop keeps the stream's writes and dispatches on the path LoopOf prescribes |
| QuicServer.ReadLoop | pkg/mcpquic/server.go:79-110 | the loop dispatches and writes exactly what LoopOf of the input's lines prescribes |
| QuicServer.ServeConn | pkg/mcpquic/server.go:44-113 | no stream: close with ProtocolViolation. Bad magic: both directions cancelled with ProtocolConfusion and close with ProtocolViolation. Registration failure: stream closed before any read. Success: the loop runs with transport "mcp_quic" and the session is unregistered. No session is registered except on success |
| QuicServer.ServedRequestsSeeQuicTransport | pkg/mcpquic/server.go:74 | requests carry the transport "mcp_quic" and keep the caller's user id |
| QuicServer.Session.constructor | pkg/mcpquic/server.go:176-182 | a new session is uninitialized with an empty 100-slot notification queue |
| QuicServer.Session.Initialize | pkg/mcpquic/server.go:186 | the session becomes initialized |
| QuicServer.ServeOf | pkg/mcpquic/server.go:142-161 | at most one disposition per accept result |
| QuicServer.ServeOfStops | pkg/mcpquic/server.go:143-150 | the loop returns iff some accept result reports a cancelled context; other errors are skipped, and every earlier result is handled |
| QuicServer.AlpnFilter | pkg/mcpquic/server.go:153-159 | a connection is served iff its ALPN is "horos-mcp-v1"; any other is closed with UnsupportedALPN and "unsupported ALPN: " plus the protocol |
| QuicServer.Serve | pkg/mcpquic/server.go:142-161 | the accept loop equals ServeOf |
| Chassis.TlsSourceOf | pkg/chassis/server.go:63-65 | a supplied configuration wins; then production files when both paths are set; otherwise self-signed |
| Chassis.SelectTls | pkg/chassis/server.go:63-80 | the supplied configuration as is, or the chosen builder's result; its failure is wrapped as "load TLS cert: " or "generate dev TLS: " |
| Chassis.SuppliedTlsWins | pkg/chassis/server.go:63-64 | with a supplied configuration the builders' outcomes do not matter |
| Chassis.New | pkg/chassis/server.go:58-95 | fails iff TLS selection fails; otherwise a fresh server with the address and the selected TLS configuration, and an MCP handler iff an MCP server is configured |
| Chassis.Server.constructor | pkg/chassis/server.go:82-92 | a new server holds the address, the TLS configuration and whether it has an MCP handler, and no component is running |
| Chassis.TcpTls | pkg/chassis/server.go:132-133 | the TCP configuration is a copy with ALPN list exactly ["h2", "http/1.1"] and the shared certificate |
| Chassis.Server.Start | pkg/chassis/server.go:126-160 | the TCP server is built; a QUIC listen failure is returned wrapped as "QUIC listen: "; otherwise the QUIC listener and the HTTP/3 server exist |
| Chassis.StopResults | pkg/chassis/server.go:229-244 | a component that does not exist contributes no result |
| Chassis.Server.Stop | pkg/chassis/server.go:223-248 | the first error among the existing components in the order TCP server, QUIC listener, HTTP/3 server, else none |
| Chassis.FirstErrorOfThree | pkg/chassis/server.go:229-247 | folding three steps reports the first failure in order |
| Chassis.FirstErrorIsEarliest | pkg/chassis/server.go:229-247 | none iff every step succeeded; otherwise a failure with no failure before it |
| Chassis.StopReportsTcpFirst | pkg/chassis/server.go:230-234 | a failed TCP shutdown is what Stop reports, whatever the later steps give |
| Chassis.SetSecurityHeaders | pkg/chassis/server.go:98-107 | the five fixed headers take their fixed values; every other header is unchanged |
| Chassis.AltSvcValue | pkg/chassis/server.go:111-116 | h3=":<port>"; ma=86400, with "8080" when no port was split out |
| Chassis.AdvertisedPort | pkg/chassis/server.go:116 | a value of the Alt-Svc shape is that shape around the port read from it |
| Chassis.AltSvcAdvertisesPort | pkg/chassis/server.go:111-116 | the advertised port reads back as the listen port, or "8080" |
| Chassis.ServedHeaders | pkg/chassis/server.go:129 | the application handler sees the security headers and Alt-Svc set before it runs |
| Chassis.RouteOf | pkg/chassis/server.go:193-210 | "h3" goes to HTTP/3; "horos-mcp-v1" goes to the MCP handler when there is one and is otherwise closed with 0x10 "MCP not enabled"; anything else is closed with 0x11 "unsupported ALPN: " plus the protocol |
| Chassis.ChassisCodesAreNotConnCodes | pkg/chassis/server.go:205-209 | the chassis close codes lie outside the connection-code enumeration |
| Chassis.AcceptLoopStopsAtFirstError | pkg/chassis/server.go:183-191 | the loop routes every connection before the first accept error; that error ends it, silently when the context is cancelled and otherwise reported once |
| Chassis.AcceptLoop | pkg/chassis/server.go:182-212 | the accept loop equals AcceptLoopOf |
| Chassis.NoAcceptAfterReportedError | pkg/chassis/server.go:185-190 | unlike Listener.Serve, nothing is accepted after a reported error |
| ImportRows.HeaderOf | pkg/importer/adapter_sirene.go:100-103 | a missing or unreadable first record is the header error; otherwise the header is its fields |
| ImportRows.LastIndex | pkg/importer/adapter_companies_house.go:127-132 | a qualifying header position exists iff some key qualifies |
| ImportRows.ColumnNamed | pkg/importer/adapter_sirene.go:105-125 | a column is found iff the name is a key, and then at its last position |
| ImportRows.KeysOf | pkg/importer/adapter_sirene.go:105-108 | every header name is transformed in place of its position |
| ImportRows.CellAt | pkg/importer/adapter_sirene.go:166-168 | a cell is read iff its column exists and is in range, and is then trimmed |
| ImportRows.FoldRows | pkg/importer/adapter_sirene.go:131-170 | the record loop fills the table as the last-write-wins fold of the readable rows; unreadable rows are skipped |
| ImportRows.RowsStored | pkg/importer/adapter_sirene.go:131-170 | a key is stored iff some readable row writes it, and its entry comes from such a row |
| ImportRows.RowsLastWins | pkg/importer/adapter_sirene.go:169 | for a repeated key the last readable row writing it supplies the entry |
| ImportRows.AggregateRows | pkg/importer/adapter_insee_prenoms.go:122-155 | the aggregation loop equals Aggregate of the readable rows' tallies |
| ImportRows.AddTally | pkg/importer/adapter_insee_prenoms.go:147-154 | one tally adds its count to the key's total and keeps the tag the rule picks |
| ImportRows.BuildEntries | pkg/importer/adapter_insee_prenoms.go:157-167 | the output loop equals EntriesOf |
| ImportRows.EntriesOf | pkg/importer/adapter_insee_prenoms.go:157-167 | exactly one entry per aggregated key, with the metadata built from its tally |
| ImportRows.TalliesStored | pkg/importer/adapter_insee_prenoms.go:157-167 | a key is output iff some readable row counts for it, with the summed total and the picked tag |
| Sirene.ColumnsOf | pkg/importer/adapter_sirene.go:105-129 | an error iff neither denomination column is in the trimmed header; otherwise each column at its last position, if any |
| Sirene.NameOf | pkg/importer/adapter_sirene.go:151-158 | the trimmed denomination, falling back to the usual denomination when it is empty or missing |
| Sirene.Row | pkg/importer/adapter_sirene.go:142-169 | a row is kept iff its state cell is missing or exactly "A" and it has a name; the key is the normalized name; metadata holds "siren" iff its cell is present |
| Sirene.Parse | pkg/importer/adapter_sirene.go:88-174 | the parse equals ParseOf: a header error, or the last-write-wins table of the kept rows |
| Sirene.StoredFromActiveRows | pkg/importer/adapter_sirene.go:133-170 | every stored key comes from an active readable row with a name |
| CompaniesHouse.ExactNameFolds | pkg/importer/adapter_companies_house.go:111-118 | the exact name "CompanyName" also qualifies under case folding |
| CompaniesHouse.ColumnsOf | pkg/importer/adapter_companies_house.go:106-141 | an error iff no trimmed header equals "companyname" ignoring case; an exact "CompanyName" is preferred; status and number columns match ignoring case |
| CompaniesHouse.Row | pkg/importer/adapter_companies_house.go:152-175 | a row is kept iff its status is missing or "Active" ignoring case and its name is in range and non-empty; "company_number" iff its cell is present |
| CompaniesHouse.Parse | pkg/importer/adapter_companies_house.go:90-180 | the parse equals ParseOf: a header error, or the last-write-wins table of the kept rows |
| CompaniesHouse.NoStatusKeepsAll | pkg/importer/adapter_companies_house.go:153-160 | without a status column no row with a name is filtered out |
| InseeCommunes.ColumnsOf | pkg/importer/adapter_insee_communes.go:86-112 | an error iff no upper-cased trimmed header is LIBELLE, NCC or NCCENR; otherwise the name, DEP, COM and TYPECOM columns |
| InseeCommunes.Row | pkg/importer/adapter_insee_communes.go:124-148 | a row is kept iff its TYPECOM is missing, empty or "COM" and its name is in range and non-empty; "departement" and "code_commune" iff their cells are present |
| InseeCommunes.Parse | pkg/importer/adapter_insee_communes.go:69-153 | the parse equals ParseOf: a header error, or the last-write-wins table of the kept rows |
| InseeCommunes.StoredFromCommunes | pkg/importer/adapter_insee_communes.go:115-149 | every stored key comes from a readable commune row with a name |
| CensusSurnames.ColumnsOf | pkg/importer/adapter_census_surnames.go:104-114 | an error iff no lower-cased trimmed header is "name"; a missing rank or count column defaults to index 0 |
| CensusSurnames.Row | pkg/importer/adapter_census_surnames.go:124-142 | a row is kept iff its name is in range and non-empty; "rank" and "frequency" are the trimmed cells present in the row |
| CensusSurnames.Parse | pkg/importer/adapter_census_surnames.go:88-147 | the parse equals ParseOf: a header error, or the last-write-wins table of the kept rows |
| CensusSurnames.LastRecordWins | pkg/importer/adapter_census_surnames.go:142 | for a repeated key the last kept record supplies the entry |
| InseePrenoms.ColumnsOf | pkg/importer/adapter_insee_prenoms.go:104-114 | an error iff no lower-cased trimmed header is "preusuel"; the width is the header's |
| InseePrenoms.Row | pkg/importer/adapter_insee_prenoms.go:122-145 | a record counts iff it has the header's width and a non-empty name other than "_prenoms_rares" in any case; its count is the parsed nombre or 0 |
| InseePrenoms.Meta | pkg/importer/adapter_insee_prenoms.go:157-166 | "sexe" iff the kept sex is non-empty; "frequency" iff the total is positive, written in decimal so that it reads back as the total |
| InseePrenoms.Parse | pkg/importer/adapter_insee_prenoms.go:87-171 | the parse equals ParseOf: a header error, or one entry per counted key built from its aggregate |
| InseePrenoms.NamesStored | pkg/importer/adapter_insee_prenoms.go:131-167 | a key is output iff some record counts for it; its "frequency" is present iff the sum of its counts is positive and reads back as that sum; "sexe" is present iff the first non-empty sex exists |
| InseePatronymes.ColumnsOf | pkg/importer/adapter_insee_patronymes.go:105-124 | the name column is a header holding "NOM" but not "NOMBRE", else 0; the count column a header holding "NOMBRE" or "FREQ" |
| InseePatronymes.Row | pkg/importer/adapter_insee_patronymes.go:139-152 | a record counts iff its name is in range and non-empty; it counts the parsed count cell, or 0 |
| InseePatronymes.Meta | pkg/importer/adapter_insee_patronymes.go:161-167 | "frequency" iff the total is positive, in decimal reading back as the total; otherwise an empty map |
| InseePatronymes.Parse | pkg/importer/adapter_insee_patronymes.go:87-172 | the parse equals ParseOf |
| InseePatronymes.FailsOnlyOnHeader | pkg/importer/adapter_insee_patronymes.go:99-124 | the parse fails iff the header cannot be read: a missing name column is not an error |
| InseePatronymes.SurnamesStored | pkg/importer/adapter_insee_patronymes.go:131-168 | a key is output iff some record counts for it; its "frequency" is present iff the sum of its counts is positive and reads back as that sum |
| SsaBabyNames.LineItems | pkg/importer/adapter_ssa_babynames.go:64-81 | one tally item per line: lines without exactly three comma parts count nothing |
| SsaBabyNames.Meta | pkg/importer/adapter_ssa_babynames.go:86-95 | "frequency" always, reading back as the total when it fits in int64; "sex" iff the kept sex is non-empty |
| Upsert.AggregateAppend | pkg/importer/adapter_ssa_babynames.go:71-83 | a row that counts nothing leaves the aggregates unchanged; a counted row is one aggregation step for its own key |
| SsaBabyNames.AddLines | pkg/importer/adapter_ssa_babynames.go:63-83 | the line loop extends the aggregate by the file's lines |
| SsaBabyNames.ParseFiles | pkg/importer/adapter_ssa_babynames.go:45-95 | the file and line loops and the output loop equal EntriesOfFiles |
| SsaBabyNames.CountedIsNamed | pkg/importer/adapter_ssa_babynames.go:52-81 | every counted item comes from a line of a yob*.txt file with three parts whose trimmed name normalizes to the key |
| SsaBabyNames.NamedIsCounted | pkg/importer/adapter_ssa_babynames.go:52-81 | every such line is counted |
| SsaBabyNames.SsaItemsCount | pkg/importer/adapter_ssa_babynames.go:52-81 | a key is counted iff some line of a year file names it |
| SsaBabyNames.NamesStored | pkg/importer/adapter_ssa_babynames.go:86-95 | a key is output iff some year-file line names it; its "frequency" reads back as the sum of its counts; "sex" is present iff the first such line's sex is non-empty |
| Adapters.AllOf | pkg/importer/adapter.go:52-61 | every registered adapter exactly once, sorted ascending by id |
| Adapters.AdapterRegistry.constructor | pkg/importer/adapter.go:28-31 | the registry starts empty |
| Adapters.AdapterRegistry.Register | pkg/importer/adapter.go:34-38 | the adapter is stored under its id, replacing any earlier one |
| Adapters.AdapterRegistry.Get | pkg/importer/adapter.go:41-49 | the adapter registered under the id, or the error "unknown import source" naming the id |
| Adapters.AdapterRegistry.All | pkg/importer/adapter.go:52-61 | the collect-and-sort equals AllOf |
| Adapters.RegisterThenAllLists | pkg/importer/adapter.go:34-61 | after registering an adapter, All lists it |
| Adapters.RegisterThenAllLength | pkg/importer/adapter.go:55-58 | All's length grows by one for a new id and stays for a known one |
| SourceDb.SeedRow | pkg/importer/sourcedb.go:64-70 | a seeded row carries the adapter's id, URL and the clock, with no check recorded |
| SourceDb.SeedKeys | pkg/importer/sourcedb.go:63-75 | an id has a row after seeding iff it had one or some adapter has that id |
| SourceDb.SeedKeeps | pkg/importer/sourcedb.go:63-75 | an existing row is never overwritten |
| SourceDb.SeedFirst | pkg/importer/sourcedb.go:63-75 | a new row comes from the first adapter with that id |
| SourceDb.SeedIdempotent | pkg/importer/sourcedb.go:63-75 | seeding again changes nothing, whatever the clock |
| SourceDb.SeedKeyed | pkg/importer/sourcedb.go:63-75 | every row stays stored under its own adapter id |
| SourceDb.SetUrlOf | pkg/importer/sourcedb.go:88-101 | an update happens iff the id has a row |
| SourceDb.UrlOf | pkg/importer/sourcedb.go:78-85 | the stored URL, or the no-rows error naming the id |
| SourceDb.SetThenGet | pkg/importer/sourcedb.go:78-101 | after SetURL, GetURL returns the new URL and every other id's URL is unchanged |
| SourceDb.CheckKeepsRest | pkg/importer/sourcedb.go:104-118 | UpdateCheck sets the check time, the status and the error (none for ""), and leaves the id, URL and update time alone |
| SourceDb.ListOf | pkg/importer/sourcedb.go:121-140 | every row once, in strictly ascending adapter-id order |
| SourceDb.SourceDB.constructor | pkg/importer/sourcedb.go:31-54 | a fresh database has no rows, so it lists zero sources |
| SourceDb.SourceDB.Seed | pkg/importer/sourcedb.go:63-75 | the insert-or-ignore loop yields SeedOf of the old table |
| SourceDb.SourceDB.GetURL | pkg/importer/sourcedb.go:78-85 | the query equals UrlOf |
| SourceDb.SourceDB.SetURL | pkg/importer/sourcedb.go:88-101 | an existing row is updated as SetUrlOf prescribes; otherwise the table is unchanged and the error is "adapter <id> not found in import_sources" |
| SourceDb.SourceDB.UpdateCheck | pkg/importer/sourcedb.go:104-118 | never an error; the table becomes CheckedOf of the old table |
| SourceDb.SourceDB.ListSources | pkg/importer/sourcedb.go:121-140 | the listing equals ListOf |

## Left out

- Concurrency: the registry and adapter locks, the goroutines and `errCh` of `Start`, the notification-drain goroutine of a session and its mutex, and `UnregisterSession` as a deferred call. The model is sequential; `ServeConn` reports unregistration as a flag.
- Listeners, TLS handshakes and certificate generation (pkg/chassis/tls.go, the TLS builders of pkg/mcpquic/config.go): their results are parameters. pkg/mcpquic/client.go, pkg/kit/transport_mcp.go and pkg/api/handler.go are not part of this model.
- File, archive and network I/O: `os.Open`, `os.ReadDir`, `os.Stat`, downloading, unzipping and writing manifests (pkg/importer/helpers.go), the adapters' `Import` steps other than the SSA line loop, and pkg/importer/checker.go are not part of this model.
- YAML decoding of manifest.yaml and gob decoding of data.gob: the model takes the decoded value or the failure.
- CSV tokenizing and charset transcoding: a file is given as the sequence of outcomes of successive `csv.Reader.Read` calls (a record or a failure). Quoting, delimiters, `TrimLeadingSpace` and the width check of a reader with `FieldsPerRecord` 0 are decided before the model sees a record; for INSEE prenoms the width rule is stated explicitly in `InseePrenoms.Row`.
- The regular-expression engine: a compiler is a parameter that returns a matcher or a failure.
- Unicode beyond Latin-1: lower- and upper-casing and accent stripping (NFD, removal of non-spacing marks, NFC) are modelled for ASCII, the Latin-1 letters and the combining diacritical marks U+0300..U+036F only. Strings are sequences of characters, so the byte-length tests of Go (`len(s)` in the validators) coincide with the model only on ASCII input.
- Error wrapping texts produced by `fmt.Errorf` around library errors are abstracted. Parser errors are named by the kind of failure: the header, or the missing column. Manifest and dictionary failures are named by their cause. The exact texts kept are:
  - `Get`'s "unknown import source", with `%q` quoting modelled as plain double quotes;
  - `SetURL`'s "not found in import_sources";
  - "QUIC listen: ", "QUIC accept: ", "load TLS cert: " and "generate dev TLS: ";
  - the connection and ALPN close reasons.
- Logging (`slog`), including the collision warning of `loadCSV` and the `skipped` counters of the importers: the collision count is computed, and the logging is not modelled.
- `net.SplitHostPort`: the port it yields is an input of `Chassis.AltSvcValue`.
- `crypto/rand`: the four random bytes of a session id are an input.
- `json.Marshal`, `json.Unmarshal` and `HandleMessage`: `Encoder` and `MessageHandler` parameters, and a raw-arguments value that is an object or not.
- SQLite: the `import_sources` table is a map from adapter id to row, and the clock is a parameter. Database errors are not modelled. Re-opening an existing database file is not modelled either: the constructor is a fresh, empty table.
- Map iteration order in Go: where several headers qualify (Companies House case-insensitive columns, INSEE communes name headers, INSEE patronymes columns), Go picks whichever qualifying key the map yields. The model picks the last qualifying header position, which is one of the outcomes Go allows.
- The bufio line limits of `bufio.Scanner` in the SSA importer and of `bufio.Reader` in `ServeConn`, and scanner or read errors other than the end of input: a line stream is given as complete lines, and a read error ends the read loop like the end of input.
- `Registry.Reload` is not part of this model.
- `InseePrenoms.Meta`: the round trip through the decimal text is proved only for totals up to the int64 maximum; Go's `int` sum wraps beyond it, and the model sums without bound.
- `InseePatronymes.Meta`: the same int64 bound on the round trip; the sum is unbounded.
- `SsaBabyNames.Meta`: the same int64 bound on the round trip; the sum is unbounded.
- `Api.StringArg`: JSON values other than strings are one abstract case, so the model does not distinguish numbers, booleans and objects.
- `Streams.Stream.Write`: a failing stream fails every write and writes nothing; partial writes are not modelled.
