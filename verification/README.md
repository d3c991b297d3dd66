# Verified model of the Viriatum web server cores

Viriatum is an event-driven web server in C. This project models the parts of it that decide what bytes
mean and who owns what, and proves that they do what their protocols and their own comments promise.

- **HPACK** (RFC 7541): the canonical Huffman code, prefix integers, string literals, the dynamic table
  on its ring, block decoding against the wire forms of the standard, field encoding, and two ends of a
  connection in lockstep.
  `Bits`, `HuffmanCode`, `HuffmanTables`, `HuffmanRfc`, `HuffmanCodec`, `HuffmanExamples`, `HpackInteger`, `HpackString`,
  `HpackTable`, `Hpack`, `HpackCodec`, `HpackLockstep`, `HpackForms`, `HpackStatic`, `HpackExamples`.
- **The HTTP/1.1 push parser**: its states byte by byte, its invariant, its recognisers, its framing
  of bodies, and the loop that takes bodies in bulk. `HttpTypes`, `HttpStep`, `HttpInvariant`, `HttpRun`,
  `HttpMarks`, `HttpParser`, `HttpMethods`, `HttpTargets`, `HttpVersions`, `HttpHeaderNames`, `HttpHeaderValues`,
  `HttpLengths`, `HttpChunks`, `HttpTables`.
- **Requests end to end**: from the wire form of requests, through the connection, to the calls of the
  handlers, and what refuses them or hands the connection over; and responses. `HttpRequestLine`,
  `HttpHeaderLines`, `HttpOddLines`, `HttpRequest`, `HttpConversation`, `HttpSpoken`, `HttpResponse`.
- **The connection that feeds the parser**: buffer, preface detection, drain loop and lock, the buffers
  that are replaced under it, and the order of its calls. `HttpLocks`, `HttpStream`, `HttpCuts`, `HttpMessages`.
- **WebSocket framing** (RFC 6455): `WebSocket`, `WebSocketCodec`.
- **The polling loop**: outstanding reads and removals. `PollingLists`, `Polling`.
- **The open-file cache** over a file system that changes under it. `FileSystem`, `FileCache`.

The loops, classes and buffers of the source are methods, classes and arrays here, each proved against a
function or a predicate that says what it computes; the properties are lemmas about those.

## How the source is read

- Bytes are numbers below 256. Shifts and masks are arithmetic; a width is applied where the source has
  one (the 32-bit accumulator, `int` lengths, the 8-bit saved index, `unsigned int` seconds).
- The Huffman results are proved for any tables that form a valid complete canonical code, and the tables
  of the source are proved to be such tables.
- The HPACK callback is a function of the fields handed over so far and the next field. The two literal
  buffer sizes (`VIRIATUM_MAX_HEADER_SIZE` and `VIRIATUM_MAX_HEADER_V_SIZE`) are parameters.
- The switch of the HTTP parser is a function of the parser, a byte and its position, grouped by states;
  the surrounding loop, the bulk bodies and the saving of the state are a method. Every handler function
  is taken as set and as answering 0. Marks and the ranges given to handlers are positions in the stream
  of the connection. `STRICT_CHECK` makes no checks, as in the source. Plain `char` is taken as signed.
- The field `index` of a fresh parser, which the source leaves unset, is taken as 0; nothing reads it
  before it is set.
- A length that leaves its `int` ends the model of a connection (`Overflowed`): C gives it no meaning.
- A connection is followed until it is closed, handed to another protocol or taken over by HTTP/2.
  Whether the handler of a message locks it is a function of where the message ends in the stream, and when
  it is released later is left open.
- A buffer that is grown is a new buffer. C lets no pointer into the old one be used, also where `REALLOC`
  leaves the bytes in place; a connection whose parser would go on with such a pointer is not followed
  further (`Dangling`).
- The polling results assume what the source relies on without a check: callbacks open connections only
  while the arrays have places for all that are not released, do not ask for reads of a connection that is
  unregistered, and name none that is released.
- The file system is a script of moments with a clock that never goes back; every call may fail.

## Where code and documentation differ

- The assertion `read_count == 1` (`src/viriatum/http/http_parser.c:1696`) expects a counter of bytes that
  the source only ever sets to 0. The counter is not in the model. What is said of chunks
  (`HttpChunks.ChunkedBody`, `HttpRequest.ChunksEnd`, `HttpConversation.RequestParsed` and
  `HttpConversation.Served`) is said of builds that compile assertions out.
- The upper half of the table of hexadecimal digits (`src/viriatum/http/http_parser.h:195-204`) is left at 0,
  where the lower half marks other characters with -1: bytes above 127 are taken as the digit 0.
  `HttpChunks.SizeLineExact` says which size lines are taken, `HttpChunks.StandardExact` when that is what
  the standard says, and `HttpChunks.HighBitsTaken` gives an input on which it is not.
- The parser keeps pointers to where a target, a field name or a value started from one call to the next
  (`src/viriatum/http/http_parser.c:161-163` and `1829-1831`), and the connection may replace the buffer they
  point into in between (`src/viriatum/stream/stream_http.c:276`); nothing moves them along.
  `HttpStream.Connection.OnData` says exactly when that happens, `HttpCuts.MovedUnderMark` gives an input, and
  the results that compare cuttings (`HttpStream.CuttingDoesNotMatter`, `HttpStream.StoppedStays` and
  `HttpConversation.Served`) are said of connections to which it did not. `HttpCuts.CleanCuts` and
  `HttpConversation.ServedWhole` say what to cut for that.
- The cache comments promise a trusted time of four seconds (`src/viriatum/handlers/handler_file.h:60`).
  The test is on unsigned seconds, so it holds for entries asked for within one round of the clock;
  `FileCache.FourSecondsExactly` gives the exact condition and `FileCache.RoundTheClock` a run beyond it.

## Model

| member | source | states |
|---|---|---|
| HuffmanCode.DecodeExact | src/viriatum/http/hpack.c:569-654 | for every valid complete canonical code, decoding bytes d yields s if and only if encoding s yields d: padding and coded form are unique |
| HuffmanCode.DecodeOfEncode | src/viriatum/http/hpack.c:656-716 | decoding the coded form of any byte string gives it back |
| HuffmanCode.EncodeInjective | src/viriatum/http/hpack.c:656-716 | different byte strings have different coded forms |
| HuffmanCode.CodeIsComplete | src/viriatum/http/hpack.c:582-605 | the code is complete: no input whatever reaches the rejection of codes over 30 bits |
| HuffmanCode.NeverInvalid | src/viriatum/http/hpack.c:582-605 | from within any code that is not decoded yet, what follows decodes it or ends the input by bit 30 |
| HuffmanCode.DecodeCoded | src/viriatum/http/hpack.c:604-654 | the codes of a byte string followed by at most seven one bits decode to it, whatever has been decoded before |
| HuffmanCode.DecodedIsCoded | src/viriatum/http/hpack.c:604-654 | bits that decode are the codes of the result and a padding of fewer than eight one bits |
| HuffmanRfc.Rfc7541Valid | src/viriatum/http/hpack.c:112-218 | the code, length, symbol, count, first-code and first-index tables of the source form a valid complete canonical code |
| HuffmanRfc.LengthAgrees | src/viriatum/http/hpack.c:203-218 | for every length in use the first-code table says what the counts of the shorter lengths call for, and the first-index table how many symbols have shorter codes |
| HuffmanRfc.SymbolsOnto | src/viriatum/http/hpack.c:178-201 | every symbol of the 257 stands in the symbol table |
| HuffmanTables.FirstCodes | src/viriatum/http/hpack.c:208-213 | the first code of each length follows from the counts of the shorter ones, first[l+1] = 2 (first[l] + count[l]), down to lengths without codes |
| HuffmanExamples.Status302 | src/viriatum/http/hpack.c:112-218 | the Huffman form of the example C.6.1 of RFC 7541 |
| HuffmanExamples.NoCache | src/viriatum/http/hpack.c:112-218 | the Huffman form of the example C.4.2 |
| HuffmanCodec.DecodeHuffman | src/viriatum/http/hpack.c:569-654 | the bit-at-a-time loop computes Decode: the symbols, the end-of-string error, the two padding errors, or the overflow of the output buffer; what was decoded stands at the start of the buffer |
| HuffmanCodec.EncodeHuffman | src/viriatum/http/hpack.c:656-716 | the loop over a 32-bit accumulator writes exactly the coded form, or fails when it does not fit; stale high bits never show |
| HuffmanCodec.SizeHuffman | src/viriatum/http/hpack.c:718-732 | the size computed ahead is the number of bytes of the coded form |
| HuffmanCodec.PushStep | src/viriatum/http/hpack.c:673-681 | pushing a code into the accumulator appends its bits to the pending ones, with the bits above 32 lost only among stale ones |
| HuffmanCodec.FlushStep | src/viriatum/http/hpack.c:683-693 | flushing a byte takes the eight oldest pending bits out |
| HpackInteger.DecodeIntegerExact | src/viriatum/http/hpack.c:437-512 | decoding gives a value and an offset exactly for the representations of section 5.1 of RFC 7541 of values up to 0x0fffffff, in at most four continuation bytes |
| HpackInteger.EncodeRepresents | src/viriatum/http/hpack.c:514-567 | what is encoded is a representation of the value, under the flags, in at most five bytes |
| HpackInteger.IntegerRoundTrip | src/viriatum/http/hpack.c:437-567 | for every prefix of 1 to 8 bits, flags above it and value up to 0x0fffffff, decoding what was encoded gives the value and the offset behind it, whatever surrounds it |
| HpackInteger.DecodeIntegerAt | src/viriatum/http/hpack.c:437-512 | the loop computes the value and the new offset; on an error the offset stays |
| HpackInteger.EncodeIntegerAt | src/viriatum/http/hpack.c:514-567 | the loop writes the representation and moves the offset by its length, or leaves the offset where it is when it does not fit |
| HpackString.StringRoundTrip | src/viriatum/http/hpack.c:734-817 | a string literal decodes to its string whether it was sent plain or in Huffman form |
| HpackString.DecodeStringAt | src/viriatum/http/hpack.c:734-785 | string literals are decoded into the buffer, with the truncation, overflow and Huffman errors in the order of the code |
| HpackString.EncodeStringAt | src/viriatum/http/hpack.c:787-817 | the shorter of the two forms is written, and the buffer limits are respected |
| HpackTable.EvictedLongest | src/viriatum/http/hpack.c:279-298 | eviction keeps the longest run of newest entries that fits: one more would not |
| HpackTable.CountBound | src/viriatum/http/hpack.h:55 | every field counts 32 octets and more, so a table within 4096 octets has at most 128 fields, and fewer while another one still fits |
| HpackTable.DynamicTable.Push | src/viriatum/http/hpack.c:320-343 | a field that fits stands in front of all the others, none of which is lost: no live slot of the ring is overwritten |
| HpackTable.SearchIs | src/viriatum/http/hpack.c:393-435 | a position is the one the search asks for when it matches and nothing in front of it does, or is zero when nothing matches |
| HpackTable.DynamicTable.constructor | src/viriatum/http/hpack.c:246-265 | a new table is empty, with the maximum size of 4096 octets |
| HpackTable.DynamicTable.Evict | src/viriatum/http/hpack.c:227-244 | evicting drops the oldest entry of the sequence that the ring stands for |
| HpackTable.DynamicTable.Resize | src/viriatum/http/hpack.c:279-298 | a new maximum size keeps the newest entries that fit in it |
| HpackTable.DynamicTable.Insert | src/viriatum/http/hpack.c:300-343 | an insert makes room first and then puts the entry in front; an oversized entry empties the table (section 4.4 of RFC 7541) |
| HpackTable.DynamicTable.Get | src/viriatum/http/hpack.c:345-391 | an index reads the static table, then the dynamic one newest first; zero and indexes past the end are errors |
| HpackTable.DynamicTable.Find | src/viriatum/http/hpack.c:393-435 | a full match anywhere wins over a name match, and static entries over dynamic ones |
| HpackTable.DynamicTable.Delete | src/viriatum/http/hpack.c:267-277 | all entries of a table are released |
| Hpack.DecodeSafe | src/viriatum/http/hpack.c:819-940 | on arbitrary bytes the table keeps its bounds, the fields handed over stay within 32768 octets, earlier fields stay, and the maximum size does not change once a field was handed over |
| Hpack.DecodeBlockSafe | src/viriatum/http/hpack.c:819-940 | the same for a whole block of arbitrary bytes |
| HpackForms.DecodeStringExact | src/viriatum/http/hpack.c:734-785 | a string is decoded, and its end found, exactly where one of the two forms of section 5.2 of RFC 7541 of it stands, of a size that the buffer holds |
| HpackForms.DecodeRepresentationExact | src/viriatum/http/hpack.c:842-919 | a representation is decoded, and its end found, exactly where a form of section 6 of RFC 7541 of it stands: indexed; literal with the flag 01 and 6 bits of index, which alone joins the table, with 0000 or with 0001 and 4 bits; size update with 001 and 5 bits, only in front of all fields |
| HpackForms.BlockExact | src/viriatum/http/hpack.c:819-940 | a block is decoded to fields and a table exactly when it is some representations put together that mean them: size updates before all fields, no field refused, no more than 32768 octets with 32 counted for each field |
| HpackForms.ResizedExact | src/viriatum/http/hpack.c:279-298 | a size update leaves the longest run of newest entries that the new size holds |
| HpackForms.AddedExact | src/viriatum/http/hpack.c:300-343 | a field that joins stands in front of the longest run of newest entries that fit beside it, and one that does not fit empties the table |
| HpackForms.SizeOfConcat | src/viriatum/http/hpack.c:300-318 | the size of a list of fields is that of its parts together, and of one field its octets and 32 more |
| HpackForms.EncodedForm | src/viriatum/http/hpack.c:942-985 | what the encoder writes for a field is a form of that field |
| HpackForms.EncodedKind | src/viriatum/http/hpack.c:942-985 | it is the indexed form exactly when the field is in a table, otherwise the literal with or without indexing, as was asked, and the name is spelt out exactly when no entry has it |
| HpackExamples.StaticKnown | src/viriatum/http/hpack.c:48-110 | entries of the static table with a value, as Appendix A of RFC 7541 lists them |
| HpackExamples.StaticNamesKnown | src/viriatum/http/hpack.c:48-110 | entries of the static table of which Appendix C uses the name |
| HpackExamples.LaterNamesKnown | src/viriatum/http/hpack.c:48-110 | further entries up to the last one |
| HpackExamples.LiteralWithIndexing | src/viriatum/http/hpack.c:842-919 | the example C.2.1 of RFC 7541, whatever the table and whatever follows |
| HpackExamples.LiteralWithoutIndexing | src/viriatum/http/hpack.c:842-919 | the example C.2.2 |
| HpackExamples.LiteralNeverIndexed | src/viriatum/http/hpack.c:842-919 | the example C.2.3: the field password: secret, and the table as it was |
| HpackExamples.Indexed | src/viriatum/http/hpack.c:842-919 | the example C.2.4 |
| Hpack.DecodeRepresentation | src/viriatum/http/hpack.c:842-919 | every representation advances the offset and stays inside the block; a size update is taken only in front of all fields and up to 4096 octets; a field leaves the table as it was or with that field added |
| HpackCodec.DecodeRepresentationAt | src/viriatum/http/hpack.c:842-919 | one representation: indexed, size update, literal with or without indexing or never indexed; the offset advances and stays within the block |
| HpackCodec.DecodeLiteralAt | src/viriatum/http/hpack.c:876-914 | the name by index or by literal, then the value, and the insert when the representation asks for it |
| HpackCodec.DecodeHpack | src/viriatum/http/hpack.c:819-940 | the loop over a block hands the callback the fields that DecodeBlock gives and leaves the ring with its table, on success and on error |
| HpackCodec.EncodeHpack | src/viriatum/http/hpack.c:942-985 | the loop over the pieces of a field writes EncodeField, or fails when the buffer is too small, and inserts the field when it is to be indexed |
| HpackLockstep.FieldRoundTrip | src/viriatum/http/hpack.c:819-985 | one encoded field, with any bytes around it, decodes to that field and the same table |
| HpackLockstep.BlockLockstep | src/viriatum/http/hpack.c:819-985 | from any point of a block on, the decoder takes the fields that are still to come and ends with the table of the encoder |
| HpackLockstep.WholeBlock | src/viriatum/http/hpack.c:819-985 | a block decodes without error to the fields that were encoded, and the two tables are equal behind it |
| HpackLockstep.Lockstep | src/viriatum/http/hpack.c:819-985 | over a whole connection, for every sequence of header lists within the limits of the decoder, every block decodes to what was sent and the tables never diverge |
| HpackStatic.ServerConfigValid | src/viriatum/http/hpack.c:48-110 | the static table and the Huffman tables of the source meet what the proofs ask of them |
| HpackStatic.ServerLockstep | src/viriatum/http/hpack.c:819-985 | lockstep for the tables of the source, from two fresh tables |
| HttpInvariant.StepKeeps | src/viriatum/http/http_parser.c:209-1814 | every byte keeps the invariant of reachable states, and hands over only ranges that have been read |
| HttpInvariant.AssertionsHold | src/viriatum/http/http_parser.c:1178-1813 | in every such state the assertions of the source hold, but for the one on a counter that is never counted; the unhandled states are not reached |
| HttpInvariant.CreatedSound | src/viriatum/http/http_parser.c:48-80 | a parser satisfies the invariant when it is created, for requests and for responses |
| HttpInvariant.ResetSound | src/viriatum/stream/stream_http.c:395-420 | so it does when it is reset between messages |
| HttpInvariant.NextMethodOk | src/viriatum/http/http_parser.c:536-590 | the index of the method recogniser never passes the end of the candidate name |
| HttpRun.ProcessSound | src/viriatum/http/http_parser.c:148-1845 | a whole call keeps the invariant, and a complete message leaves the parser at the start state |
| HttpRun.BulkIdentity | src/viriatum/http/http_parser.c:1655-1680 | taking any part of a body of announced length at once is taking it byte by byte, with the pieces joined |
| HttpRun.BulkChunk | src/viriatum/http/http_parser.c:1773-1791 | the same for the data of a chunk |
| HttpRun.BulkEof | src/viriatum/http/http_parser.c:1683-1693 | the same for a body that ends with the stream |
| HttpRun.ProcessConcat | src/viriatum/http/http_parser.c:148-1845 | a call over more data is a call over the first of it, and then over the rest if the first did not end it |
| HttpRun.CallIsFeed | src/viriatum/http/http_parser.c:148-1845 | a call takes a connection exactly as far as feeding the bytes it consumed one by one |
| HttpRun.FeedAllOk | src/viriatum/stream/stream_http.c:338-444 | over any stream the parser of a connection stays within the invariant, and is fresh between messages |
| HttpParser.Parsing.ProcessData | src/viriatum/http/http_parser.c:148-1845 | the loop with bulk bodies, the break behind a complete message and the saving of the state does what feeding byte by byte does, up to the pieces of bodies; all it hands over starts at a mark or within the data and ends within the data |
| HttpMarks.StepMarks | src/viriatum/http/http_parser.c:209-1814 | every byte keeps each of the three marks set exactly within its part of a message, and hands over only what starts at a mark or at the byte |
| HttpMarks.MarkedInside | src/viriatum/http/http_parser.c:1824-1831 | behind any bytes the parser saves a mark exactly when they end inside a target, a field name or a value |
| HttpParser.Parsing.ProcessNothing | src/viriatum/http/http_parser.c:171-190 | for a sound parser a call without data answers 0 exactly between messages and in a body that ends with the stream, leaves the parser alone, and makes the calls that the end of a call over no bytes makes |
| HttpMessages.CutOffWithin | src/viriatum/http/http_parser.c:171-190 | on the stream of a connection those are exactly the states in which no message is open: any other answer means that a message is cut off |
| HttpMessages.StepOrderly | src/viriatum/http/http_parser.c:209-1814 | on any byte of a request, from any reachable state, the calls of the step keep to the order of a message, and it is open behind them exactly when the new state says so |
| HttpMessages.CallsInOrder | src/viriatum/http/http_parser.c:148-1845 | whatever bytes a connection gets, its calls are whole messages, each begun once and completed once with all other calls in between, and at most one open message at the end: it is open exactly when the stream is cut off or stopped within it |
| HttpMessages.ConnectionInOrder | src/viriatum/stream/stream_http.c:209-448 | the same of the calls of a connection object, with any arrivals and locks: a locked one is between messages, and one that was handed over has told of whole messages only, up to the handover |
| HttpMethods.MethodAccepted | src/viriatum/http/http_parser.c:465-590 | a token and the space behind it are accepted exactly when the token is one of the 24 method names, with that method set; anything else fails |
| HttpMethods.OthersRefused | src/viriatum/http/http_parser.c:536-590 | whatever the candidate, only the rest of a name and a space are accepted |
| HttpMethods.NameAccepted | src/viriatum/http/http_parser.c:536-590 | the rest of any name is accepted from the candidate its first letters lead to |
| HttpMethods.CandidateReads | src/viriatum/http/http_parser.c:536-590 | a candidate the recogniser moves to has the letters read so far |
| HttpHeaderNames.NameRecognised | src/viriatum/http/http_parser.c:1114-1333 | the header is taken for connection, content-length, transfer-encoding or upgrade exactly when its name, in lower case and without trailing spaces, is that one (or proxy-connection); the handler gets the whole name once |
| HttpHeaderNames.TrackNext | src/viriatum/http/http_parser.c:1178-1302 | every character keeps the recogniser in step with plain comparison against all names |
| HttpHeaderNames.TrackedName | src/viriatum/http/http_parser.c:1178-1333 | what being in step means at the end of a name |
| HttpLengths.LengthRead | src/viriatum/http/http_parser.c:1335-1460 | the digits of Content-Length, with any spaces among them, are their decimal value when it fits an int, and overflow the int exactly when it does not |
| HttpLengths.LengthOverflows | src/viriatum/http/http_parser.c:1335-1460 | the largest length is 2147483647 |
| HttpLengths.AnnouncedBody | src/viriatum/http/http_parser.c:1564-1680 | exactly the announced number of bytes behind the headers is the body, in one piece, and then the message is complete |
| HttpChunks.ChunkedBody | src/viriatum/http/http_parser.c:1695-1807 | a call on the wire form of any list of chunks, with any size lines the code takes, extensions and trailers, consumes exactly the wire form, hands over each chunk and each trailer and completes the message once |
| HttpChunks.ChunkedData | src/viriatum/http/http_parser.c:1773-1791 | what is handed over is the data of the chunks, in order |
| HttpChunks.ChunkedInParts | src/viriatum/http/http_parser.c:1695-1807 | the same however the wire form is cut into parts |
| HttpChunks.ChunkRun | src/viriatum/http/http_parser.c:1695-1807 | one chunk: size digits, extension, data and line ends |
| HttpChunks.DigitsRun | src/viriatum/http/http_parser.c:1712-1740 | the digits of a size come to their hexadecimal value, with bytes above 127 as zeros |
| HttpChunks.SizeLineRead | src/viriatum/http/http_parser.c:1695-1755 | every size line and every outcome: no digit fails, a value above the int overflows, anything but an extension behind the digits fails, and the rest is taken for its value |
| HttpChunks.SizeLineExact | src/viriatum/http/http_parser.c:1695-1755 | a line is taken for a size exactly when it is a longest run of table digits, not empty, of that value within the int, and then nothing or what starts with a semicolon or a space |
| HttpChunks.StandardExact | src/viriatum/http/http_parser.h:195-204 | the code takes a line for the chunk-size of section 7.1 of RFC 9112, as far as the int holds it, exactly when no byte of its run of digits is above 127 |
| HttpChunks.HighBitsTaken | src/viriatum/http/http_parser.h:195-204 | the input on which only hexadecimal digits are sizes fails: the byte 0x80 as a size ends the body |
| HttpRequestLine.MethodTaken | src/viriatum/http/http_parser.c:465-590 | a method name and its space leave the parser in front of the target with that method, after one call |
| HttpTargets.TargetExact | src/viriatum/http/http_parser.c:592-972 | a target is handed over whole at the space behind it exactly if it has one of four forms: a slash or an asterisk and characters of targets; letters, a colon, two bytes, a host with or without a port and a path or query or nothing; for CONNECT a host with or without a port in the same way |
| HttpVersions.VersionExact | src/viriatum/http/http_parser.c:974-1112 | a version and the line feed behind it end the line and leave its two numbers exactly if it is an H, four bytes, and two numbers of at most three digits around a point, the first without a leading zero, with or without a carriage return |
| HttpRequestLine.BreaksTaken | src/viriatum/http/http_parser.c:465-480 | line ends in front of a request change nothing |
| HttpRequestLine.SpacesTaken | src/viriatum/http/http_parser.c:592-994 | nor do spaces in front of the target or the version |
| HttpRequestLine.LineTaken | src/viriatum/http/http_parser.c:465-1112 | a whole request line makes three calls: the message begins, its target is handed over, its line is over; it leaves the method and the version |
| HttpRequestLine.ShortLineTaken | src/viriatum/http/http_parser.c:720-1112 | a path at the end of the line is a request of version 0.9 |
| HttpRequestLine.AuthorityNeedsVersion | src/viriatum/http/http_parser.c:651-718 | behind a host or a port the line cannot end without a version |
| HttpHeaderValues.FollowNext | src/viriatum/http/http_parser.c:1419-1518 | every byte of a value keeps the recogniser in step with plain comparison against chunked, keep-alive or close |
| HttpHeaderValues.WordRun | src/viriatum/http/http_parser.c:1419-1518 | at the end of a value the recogniser says whether the whole value, in letters of either case and without the spaces behind it, is the word |
| HttpHeaderLines.HeaderTaken | src/viriatum/http/http_parser.c:1114-1562 | the line of any field is handed over as one name and one value, and leaves what its field means: a flag for the word that a Connection, Proxy-Connection or Transfer-Encoding line says, the length of a Content-Length line, the upgrade that an Upgrade line asks for, and nothing for any other; the line may end with a line feed alone |
| HttpHeaderLines.HeadersTaken | src/viriatum/http/http_parser.c:1114-1562 | any number of lines are handed over one by one and leave what they mean together |
| HttpHeaderLines.FlagsSaid | src/viriatum/http/http_parser.c:1520-1551 | behind any lines each flag is set exactly when some line of its field says its word, and the one for an upgrade exactly when some Upgrade line has a value |
| HttpHeaderLines.EmptyLineEnds | src/viriatum/http/http_parser.c:1114-1130 | the empty line behind the headers, with a carriage return or without, does the same |
| HttpOddLines.ContinuedTaken | src/viriatum/http/http_parser.c:1553-1562 | a line that starts with blanks is one more value of the field before it; it can give another length, and a word in it is not looked at |
| HttpOddLines.NamelessTaken | src/viriatum/http/http_parser.c:1315-1330 | a name at which the line ends is handed over without a value and means nothing |
| HttpOddLines.BrokenLine | src/viriatum/http/http_parser.c:1114-1333 | a line fails at the first byte of its name that is no character of a name, unless it is the colon or ends the line |
| HttpOddLines.BrokenLength | src/viriatum/http/http_parser.c:1335-1460 | a length fails at the first byte that is neither a digit nor a space, unless it ends the line |
| HttpTables.TokenExactly | src/viriatum/http/http_parser.h:160-193 | the characters of field names are those of tokens in section 5.6.2 of RFC 9110, in lower case, and four more |
| HttpTables.PathCharExactly | src/viriatum/http/http_parser.h:212-246 | the characters of paths against section 3.3 of RFC 3986 |
| HttpTables.HostCharExactly | src/viriatum/http/http_parser.h:47-56 | the characters of hosts are the unreserved ones of RFC 3986 without the tilde |
| HttpTables.UnhexExactly | src/viriatum/http/http_parser.h:195-204 | the table of digits gives each of its sixteen values for exactly the digits in either case, and zero for bytes above 127 |
| HttpTables.NamesKnown | src/viriatum/http/http_parser.h:118-141 | the five field names that the parser knows |
| HttpTables.WordsKnown | src/viriatum/http/http_parser.h:143-156 | the three words that mean something as a value |
| HttpHeaderLines.LengthSaid | src/viriatum/http/http_parser.c:1335-1460 | the length is the one that the last line with a length gives |
| HttpRequest.NoBodyEnds | src/viriatum/http/http_parser.c:1564-1653 | the empty line ends a request that announced no body |
| HttpRequest.SizedEnds | src/viriatum/http/http_parser.c:1564-1680 | the empty line and the announced number of bytes end a request, also when the number is zero |
| HttpRequest.ChunksEnd | src/viriatum/http/http_parser.c:1564-1807 | the empty line, the chunks and their trailers end a request that announced chunks, whatever length it announced as well |
| HttpRequest.LeavingEnds | src/viriatum/http/http_parser.c:1564-1620 | the empty line of a request for a tunnel or an upgrade is the end of it, whatever its headers say of a body |
| HttpRequest.SwitchedExactly | src/viriatum/http/http_parser.c:148-1845 | the connection is handed over at the last byte of the headers of such a message, and at no other byte of any message |
| HttpConversation.RequestParsed | src/viriatum/http/http_parser.c:148-1845 | a request as it stands on the wire, with any line of the forms above, any header lines and the content that these announce, followed by any bytes, is consumed exactly; the handlers get its parts in order, with what was known of the message at each, and the parser is at the start again |
| HttpConversation.Persistence | src/viriatum/http/http_parser.c:29-46 | the last call of a request reports a connection that persists exactly when no Connection or Proxy-Connection line of it says close, or, without a minor version, when one says keep-alive |
| HttpConversation.Conversation | src/viriatum/stream/stream_http.c:338-444 | any number of requests right behind one another make the calls of each, in order, and leave the connection fresh |
| HttpConversation.ConversationInParts | src/viriatum/stream/stream_http.c:338-444 | the same however the bytes are cut |
| HttpConversation.NotThePreface | src/viriatum/stream/stream_http.c:293-336 | no request is taken for the preface of HTTP/2 |
| HttpConversation.Served | src/viriatum/stream/stream_http.c:209-448 | a connection object that got the bytes of any requests, in whatever arrivals and with whatever locks and releases, is not held up and had no buffer replaced under a mark, has told its handlers exactly those requests |
| HttpConversation.LeavingParsed | src/viriatum/http/http_parser.c:148-1845 | a request for a tunnel or an upgrade is told like the others, without a content, and ends the parse at its empty line |
| HttpConversation.HandedOver | src/viriatum/stream/stream_http.c:209-448 | a connection object that got any requests and then one for a tunnel or an upgrade, and that nobody holds, has told all of them and has been handed over right behind the last one, whatever came behind it |
| HttpConversation.ClosedOver | src/viriatum/stream/stream_http.c:360-370 | a connection object that got any requests and then one with a byte that no field name has, and that nobody holds, has told what stands in front of that line and is closed at that byte |
| HttpConversation.ServedWhole | src/viriatum/stream/stream_http.c:209-448 | the same without a word on buffers, when every cut between arrivals is one between requests |
| HttpSpoken.AllSpoken | src/viriatum/http/http_parser.c:148-1845 | the ranges in the calls for any requests, looked up wherever the stream holds these requests, are their targets, names, values and bodies, byte for byte and in order |
| HttpSpoken.SpokenIsSent | src/viriatum/stream/stream_http.c:209-448 | the ranges a connection handed over for any requests, looked up in what arrived, are those bytes |
| HttpResponse.StatusLineTaken | src/viriatum/http/http_parser.c:261-463 | a status line makes two calls and leaves the version and the code: any two numbers and a code of at most three digits, with any spaces in front of the code, any reason or none, and either end of line |
| HttpResponse.LargeNumber | src/viriatum/http/http_parser.c:328-433 | a number of more than three digits fails |
| HttpResponse.OverWithHeaders | src/viriatum/http/http_parser.c:1564-1653 | a response without chunks is over with its headers exactly if it announces an empty body, or nothing while the connection persists |
| HttpResponse.UntilClosed | src/viriatum/http/http_parser.c:1683-1693 | a response that announces nothing on a connection that does not persist has all that follows as its body, in one piece, and is complete at the end of the call |
| HttpLocks.CallEnds | src/viriatum/http/http_parser.c:148-1845 | within what a call reads no message ends, and at its last byte one does exactly if the call says so |
| HttpStream.CallResult | src/viriatum/stream/stream_http.c:345-388 | what a connection finds after a call of its parser over all that is buffered |
| HttpStream.PrefaceBytes | src/viriatum/stream/stream_http.c:293-336 | the preface is the one of section 3.4 of RFC 9113 |
| HttpStream.DecisionTaken | src/viriatum/stream/stream_http.c:320-335 | comparing as many bytes as there are tells the preface, its start and anything else apart |
| HttpStream.Connection.constructor | src/viriatum/stream/stream_http.c:59-143 | a new connection has read nothing and holds nothing |
| HttpStream.Connection.Reserve | src/viriatum/stream/stream_http.c:256-280 | the buffer is created, or replaced by one of the larger of what is needed and what the announced length suggests, with its contents kept; it stays the same one exactly when there is room |
| HttpStream.Connection.Append | src/viriatum/stream/stream_http.c:282-291 | an arrival is stored behind what is buffered |
| HttpStream.Connection.Acquire | src/viriatum/stream/stream_http.c:183-191 | a handler locks the connection |
| HttpStream.Connection.ReadMessage | src/viriatum/stream/stream_http.c:338-444 | one message, or what there is of it, is read; the connection is locked behind it exactly when it ends there and its handler holds it |
| HttpStream.Connection.ParseNext | src/viriatum/stream/stream_http.c:341-388 | one call of the parser over all that is buffered and unread moves the read offset by what it consumed, and hands over only what lies in the buffer; it is made only while the marks point into this buffer |
| HttpStream.Connection.Restart | src/viriatum/stream/stream_http.c:390-434 | between messages the parser is fresh, and a buffer that is read to its end is released |
| HttpStream.Connection.Drain | src/viriatum/stream/stream_http.c:338-444 | messages are read up to the first whose handler holds the connection, or until everything is read; a locked connection reads nothing; the loop ends |
| HttpStream.Connection.Detect | src/viriatum/stream/stream_http.c:293-336 | the preface of HTTP/2 is recognised, ruled out, or waited for |
| HttpStream.Connection.OnData | src/viriatum/stream/stream_http.c:209-448 | an arrival keeps the invariant: offsets in order, buffer and stream in agreement, parser where the bytes read take it, nothing left unread while unlocked, locked exactly at the first end of a message since the last release at which a handler holds it; a locked connection reads nothing; what is handed over lies in the buffer at hand; and the parser would go on with a dangling pointer exactly when the arrival finds no room in the buffer and the bytes read so far end inside a target, a field name or a value |
| HttpStream.Connection.Release | src/viriatum/stream/stream_http.c:193-207 | the lock goes, and what waited is read up to its end or to the end of a further message whose handler holds the connection; it is locked behind that only if it has read on; without a lock nothing happens; the parser is never called without data and no buffer is replaced |
| HttpStream.CuttingDoesNotMatter | src/viriatum/stream/stream_http.c:209-448 | two connections that got the same bytes, whatever the arrivals, locks and releases, and had no buffer replaced under a mark, made the same calls and have the same parser, or stopped alike at the same byte; of a handover the calls up to it are compared |
| HttpStream.HeldAlike | src/viriatum/stream/stream_http.c:193-448 | two connections that got the same bytes, whose handlers hold them behind the same messages, and which were last released at the same byte, are locked at the same byte or have both read everything, with the same calls |
| HttpCuts.CleanCuts | src/viriatum/stream/stream_http.c:263-280 | no buffer is replaced under a mark when no cut between arrivals lies inside a target, a field name or a value, whatever the buffers, locks and releases |
| HttpCuts.CutInside | src/viriatum/stream/stream_http.c:256-280 | the first buffer has no room to spare: with a first arrival that ends inside one of the three, any second one dangles, unless a handler holds the connection between messages |
| HttpCuts.MovedUnderMark | src/viriatum/stream/stream_http.c:256-280 | an input on which cutting matters: the same request in one arrival, which goes on, and cut behind GET /a, which dangles |
| HttpCuts.ToldBefore | src/viriatum/stream/stream_http.c:209-448 | a connection that dangles has made the calls for the arrivals in front of the last one, which end inside one of the three |
| HttpStream.StoppedStays | src/viriatum/stream/stream_http.c:209-448 | a connection that stopped on the first bytes of a stream stopped for the same reason, at the same byte and behind the same calls, as one that got more of it, whatever the arrivals and locks, with no buffer replaced under a mark; of a handover the calls up to it are compared |
| HttpStream.FirstBytesDecide | src/viriatum/stream/stream_http.c:293-336 | the choice between HTTP/1.1 and HTTP/2 rests on the first 24 bytes alone |
| WebSocket.FrameRoundTrip | src/viriatum/http/websocket.c:78-267 | a frame the server builds, put in the form of a client and followed by any bytes, parses back to its opcode, fin flag, size and payload |
| WebSocket.AcceptedIsWire | src/viriatum/http/websocket.c:78-212 | whatever is accepted is an allowed frame as it stands on the wire, in the smallest length form |
| WebSocket.PrefixIncomplete | src/viriatum/http/websocket.c:78-212 | on any shorter prefix of a frame nothing is decided and nothing is wrong |
| WebSocket.DecodeStable | src/viriatum/http/websocket.c:78-212 | a frame or an error once reported does not depend on the bytes that follow |
| WebSocket.MaskedTwice | src/viriatum/http/websocket.c:198-202 | masking is its own inverse |
| WebSocket.XorBits | src/viriatum/http/websocket.c:201 | each bit of the exclusive or of two bytes is set exactly when one of theirs is |
| WebSocket.MaskedBits | src/viriatum/http/websocket.c:198-202 | bit by bit, byte i of a payload is masked with byte i modulo 4 of the key, as in section 5.3 of RFC 6455 |
| WebSocket.MaskedNothing | src/viriatum/http/websocket.c:198-202 | four zeros masked are the key |
| WebSocket.MaskedConcat | src/viriatum/http/websocket.c:198-202 | masking two parts, of which the first is a multiple of four bytes long, is masking each |
| WebSocket.MaskedPrefix | src/viriatum/http/websocket.c:198-202 | masking a beginning is the beginning of masking |
| WebSocket.NumberConcat | src/viriatum/http/websocket.c:108-160 | lengths are in network order: of two parts the first is worth 256 to the size of the second |
| WebSocket.RefusedExactly | src/viriatum/http/websocket.c:78-267 | once the length is there, a frame is refused exactly when it does not start like the header of an allowed one: without reserved bits, masked, and with the length in the smallest form |
| WebSocket.RefusedEarly | src/viriatum/http/websocket.c:78-160 | while bytes of the length are missing, a frame is refused exactly for its first byte or for not being masked |
| WebSocket.AllowedExactly | src/viriatum/http/websocket.c:78-160 | the opcodes and sizes that are allowed, in numbers |
| WebSocket.Examples | src/viriatum/http/websocket.c:78-267 | the frames of section 5.7 of RFC 6455 |
| WebSocketCodec.ParseFrame | src/viriatum/http/websocket.c:78-212 | parsing computes Decode; the payload of a complete frame is unmasked where it lies and nothing else is written, and an incomplete or wrong one leaves the buffer alone |
| WebSocketCodec.MaskInPlace | src/viriatum/http/websocket.c:198-202 | the loop over a payload replaces each byte i of it by its exclusive or with byte i modulo 4 of the key, and nothing else |
| WebSocketCodec.BuildFrame | src/viriatum/http/websocket.c:214-267 | the built frame is the server form with the smallest length field, or an error above the limit |
| WebSocketCodec.WriteLength | src/viriatum/http/websocket.c:242-259 | the length is written in the smallest of the three forms, in network order |
| WebSocketCodec.BuildClose | src/viriatum/http/websocket.c:269-305 | the close frame carries the code and as much of the reason as the loop keeps |
| WebSocketCodec.CloseKeepsCharacters | src/viriatum/http/websocket.c:275-287 | of a reason in UTF-8 whole characters are kept, as many as fit behind the code |
| WebSocketCodec.CloseAllowed | src/viriatum/http/websocket.c:269-322 | a close frame is 0x88, its size, the code in network order and the reason: an allowed control frame whose code reads back; without a payload the code is 1005 |
| PollingLists.Remove | src/viriatum/polling/polling_select.h:246-275 | a connection is put up for removal once |
| PollingLists.Discard | src/viriatum/polling/polling_select.h:287-314 | the first occurrence of a connection is taken out and the rest keep their order |
| PollingLists.WithoutDistinct | src/viriatum/polling/polling_select.h:287-314 | taking a connection out of a list without repetitions leaves exactly the others |
| Polling.HasExactly | src/viriatum/polling/polling_epoll.c:111-363 | behind any actions of callbacks a connection is registered, open, at its handshake or waiting for a read exactly if one of them made it so, or it was so before, and none since undid it; none waits twice |
| Polling.Loop.constructor | src/viriatum/polling/polling_epoll.c:31-53 | a new loop has empty lists |
| Polling.Loop.Register | src/viriatum/polling/polling_epoll.c:111-150 | a new connection is registered and comes to be known, everyone else stays as they were |
| Polling.Loop.AddOutstanding | src/viriatum/polling/polling_epoll.c:342-363 | a connection is appended to the outstanding reads unless it is among them, and is among them then |
| Polling.Loop.UnregisterConnection | src/viriatum/polling/polling_epoll.c:152-219 | the connection leaves the outstanding reads, its flag is cleared, and it may be put up for removal |
| Polling.Loop.Callback | src/viriatum/polling/polling_epoll.c:597-614 | a callback, which may open connections while there is room, ask for reads, unregister and shut, leaves every connection and the list of outstanding reads where its actions put them; at every boundary the flags say exactly who is in the list without repetitions |
| Polling.Loop.CallOutstanding | src/viriatum/polling/polling_epoll.c:689-757 | the connections with reads outstanding are called in their order, each unless its callbacks are off by then, and only they; the list behind it is what the actions of their callbacks make of an empty one |
| Polling.Loop.RunReaders | src/viriatum/polling/polling_epoll.c:579-619 | the connections that may be read are called in their order: those at their handshake by then for that, and then those that are open by then, be it since their handshake |
| Polling.Loop.RunCalls | src/viriatum/polling/polling_epoll.c:621-670 | the connections of a list are called in their order unless their callbacks are off by then, and none of them is released meanwhile |
| Polling.Loop.DeleteRemovals | src/viriatum/polling/polling_epoll.c:672-683 | every connection that was put up is released, each once, and none of them is in the outstanding reads |
| Polling.Loop.CallRound | src/viriatum/polling/polling_epoll.c:563-687 | behind a round exactly those callbacks of the three lists were called, handshakes included, whose connections had the status for it by then, in order; everything put up for removal has been released exactly once, no released connection has reads outstanding, and the list of outstanding reads is where the actions put it |
| Polling.Loop.Close | src/viriatum/polling/polling_epoll.c:83-109 | closing the loop releases what was still waiting |
| FileCache.TrustedExactly | src/viriatum/handlers/handler_file.c:1664-1669 | the test on unsigned seconds trusts an entry exactly when its age, up to whole rounds of the clock, is below four seconds |
| FileCache.FourSecondsExactly | src/viriatum/handlers/handler_file.c:1664-1669 | the bound of four seconds holds of what the test trusts exactly for ages below one round of the clock and for ages that stand at four seconds or more within their round |
| FileCache.RoundTheClock | src/viriatum/handlers/handler_file.c:1631-1743 | a run in which the bound fails: a path is acquired again one round of the clock later and reaches a file that it named at no moment of the last four seconds |
| FileCache.Cache.constructor | src/viriatum/handlers/handler_file.c:1577-1600 | a new cache holds no file |
| FileCache.Cache.Clear | src/viriatum/handlers/handler_file.c:1613-1629 | clearing closes every file once, and opens equal closes |
| FileCache.Cache.Empty | src/viriatum/handlers/handler_file.c:1678-1685 | a slot gives up its file and its path |
| FileCache.Cache.Refresh | src/viriatum/handlers/handler_file.c:1655-1662 | a slot that answers says the current size and time of the file its descriptor reaches |
| FileCache.Cache.OpenPath | src/viriatum/handlers/handler_file.c:1697-1729 | a path is opened and described; whatever fails is closed again, and the reason is the case |
| FileCache.Cache.Renew | src/viriatum/handlers/handler_file.c:1697-1742 | an empty slot takes the file that its path names now |
| FileCache.Cache.Acquire | src/viriatum/handlers/handler_file.c:1631-1743 | the slot of the path holds the file that the path named less than four seconds before the clock of the call, as far as the clock can tell, with its current size and time; one that was opened by the call is asked for at that moment; a trusted slot costs no open and keeps its descriptor; a failure has its reason; other slots stay; descriptors stay accounted for on every way out |
| FileCache.Cache.OpenFile | src/viriatum/handlers/handler_file.c:1745-1767 | the request gets a duplicate that reaches the file that the path named less than four seconds before the clock of the call, as far as the clock can tell, or nothing, for a reason |
| FileCache.Cache.OpensLessCloses | src/viriatum/handlers/handler_file.c:1577-1767 | opens less closes are the slots that hold a file |
| FileCache.CoherentCount | src/viriatum/handlers/handler_file.c:1577-1767 | open descriptors and slots that hold a file are equally many |

## Left out

- Overflowing lengths: the behaviour of the HTTP parser behind a signed overflow is undefined in C and not modelled.
- Upgrade and CONNECT: the parser returns without saving its state; the model ends there (`Switched`), and what the connection does with the parser from there on is not part of it.
- Handlers that answer other than 0, and the message without a body that such an answer can ask for.
- Responses read until the end of the stream are parsed, but not part of the statement on cutting, as each call completes them.
- Proxy use of the parser, where backend data lies in separate buffers while marks persist.
- What the parser does with a pointer into a buffer that was replaced: C gives it no meaning.
- MALLOC failure, logging, sockets, TLS and ALPN, and the HTTP/2 session behind the preface.
- accept_key_websocket: SHA-1 and base64 are not part of this model.
- Write lists of the polling loop, poll_count and epoll itself; changes of status are an action of callbacks.
- The breaking down of file times into calendar parts, and the listing, template and authentication caches.
- HttpConversation.RequestParsed: continued lines, names without a colon and lines without a version are not in the wire form of this statement; HttpOddLines.ContinuedTaken, HttpOddLines.NamelessTaken and HttpRequestLine.ShortLineTaken say what becomes of them.
- HttpVersions.VersionExact: that only what has the form is taken is said of lines up to their first line feed.
- HttpHeaderLines.HeaderTaken: a length that is no number fails (HttpOddLines.BrokenLength), and one that leaves the int has no meaning.
- HttpResponse.StatusLineTaken: that other status lines fail is said of their numbers only (HttpResponse.LargeNumber).
- Handlers that lock a connection before their message is complete.
- HttpChunks.StandardExact: what stands in the extensions of a chunk is compared with the standard only by how it starts, as the code does not look into it.
- HttpInvariant.AssertionsHold: does not cover the assertion on read_count, which is not modelled.
- HttpMethods.MethodAccepted: leading line ends, which the parser skips, are not part of the token.
- Maximum sizes of size_t: offsets and sizes are unbounded numbers, except where a width is named above.
- HttpParser.Parsing.ProcessData: says nothing of the saved parser when the call fails, as the connection is closed then.
- Polling.Loop.Register: does not model the failure of epoll_ctl and the counter poll_count.
- Polling.Loop.AddOutstanding: is said of registered connections only, as callbacks are taken to ask for reads of no other.
- Polling.Loop.UnregisterConnection: does not model the list of outstanding writes and the counter poll_count.
