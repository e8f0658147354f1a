# Verified model of the Synap Go SDK

A Dafny model of the parts of the SDK where bytes, types, connections and transactions can go wrong, and
proofs about them. `dafny verify dfyconfig.toml` checks everything.

- **RESP codec** (`RespCodec`, `RespLocality`, `RespRoundTrip`, `RespFrames`, `RespReader`): `Parse` says
  what `readResponse` makes of the bytes still to come, for every byte string; the class `Reader` is the
  `bufio.Reader` that hands bytes over in chunks the network chooses, and its methods, loops included, are
  proved to do what `Parse` says. Replies are trees with errors allowed anywhere; reading inverts their
  standard encoding, and request frames are uniquely decodable.
- **RESP3 connection** (`Resp3Transport`, `Resp3Runs`): the class `Transport` with its `conn` and `reader`
  fields, the retry loop, and whole runs against every network and server. The network's choices in one
  attempt (dial, write, what the server sends, how much of it arrives in time) are an input.
- **Typed payloads** (`GoTypes`, `PayloadEncode`, `PayloadDecode`, `PayloadRoundTrip`, `Float64`): Go types
  and values, the reflective encoder and decoder with their loops, and what a round trip through the value
  tree gives back. Integers pass through binary64, whose rounding is defined and proved correct.
- **The JSON trip of RESP3 payloads** (`JsonTrip`, `Utf8`): what a payload has become after it was marshalled
  and unmarshalled again, and exactly when that is what reflection gives on the binary transport.
- **Binary wire values** (`WireValues`): `toWire` and `fromWire`, with a map's entries in any order.
- **Commands and transactions** (`CommandMap`, `Transactions`, `RetriedTransactions`, `ServedBytes`,
  `Interchange`, `ModuleRequests`, `PayloadFields`, `QueuePayload`, `StreamOffset`, `Replies`): the mapping of SDK
  commands to wire commands, the request of every call of every module, scoped clients as classes, a server that
  queues per transaction id, the same over a connection that loses and repeats frames and over the bytes
  themselves, when the two native transports send the same request, a queue message and a stream offset followed
  from call to wire, and what typed modules decode from mapped replies.
- **Push and connection ownership** (`Push`, `RpcTransport`, `WatchEvents`): `Observe`/`Watch` as a state machine
  over atomic steps, the ledger of dialed clients, both also as classes, and the gaps a watcher's versions show.

A Go string is modelled as a `string` of one character per byte; `interface{}` trees are `GoValues.Value`.
Library results the SDK does not define (how floats and composite values print, `ParseFloat`, out-of-range
float-to-integer conversion, `json.Marshal` of an amount, base64, how JSON writes what its `string` option puts
between quotes and which names beyond ASCII it takes, the size above which `make` panics) are the fields of
`GoValues.GoLib`, and every theorem holds for all of them. A Go panic on a size is the outcome `Panicked`.

Where the code does other than its documentation says, or than its caller would expect, the model follows the
code: a full push buffer drops the newest message although the comment says the oldest
(`Push.FullBufferDropsNewest`); a verbatim string with empty text keeps its format hint
(`RespRoundTrip.VerbatimTextIff`); a server error inside an array leaves the connection misaligned although it is
kept as healthy (`Resp3Runs.KeptConnectionIff`, `Resp3Runs.NestedErrorMisalignsNextCall`); on RESP3, queue names
and keys that are not UTF-8 are altered before they are sent (`JsonTrip.TripIsIdentityIff`,
`Transactions.WatchedKeysArriveIff`); a frame whose reply is lost is sent again, so that a queued write can be
applied twice (`RetriedTransactions.RetryAppliesTwice`); from 2^53 on no watch version seems to follow another
(`WatchEvents.SeemsConsecutiveIff`); a scope resumed with an empty id is not transactional
(`Transactions.QueuedIffIdNonEmpty`); `Hash().Set` and `Hash().Del` look for fields the mapping never produces
(`Replies.HashSetAlwaysReportsFalse`, `Replies.HashDelAlwaysReportsZero`).

## Model

| member | source | states |
|---|---|---|
| Decimal.ParseText | transport_resp3.go:101 | parsing the decimal text of any int64 gives it back |
| Decimal.ParseIntIff | response.go:229-245 | exactly an optional sign and digits whose value is an int64 parse, and to that value |
| RespLocality.ParseStays | transport_resp3.go:78-270 | once the reader has enough bytes for a verdict, further bytes only stay unread; for every byte string |
| RespLocality.ParseEnough | transport_resp3.go:78-270 | the bytes a verdict used are enough for it; for every byte string |
| RespLocality.TruncationIsShort | transport_resp3.go:249-270 | a prefix of a byte string that reads as a value or server error is a short read exactly when it leaves out a byte that verdict used, and otherwise gives the same verdict |
| RespCodec.LastPairWins | transport_resp3.go:152-164 | the map filled from keys and values in turn has exactly the keys some pair prints, each with the value of the last such pair |
| RespCodec.LineOf | transport_resp3.go:249-257 | a line ends at its first newline, and carriage returns before it are not part of it |
| RespCodec.RefusedLines | transport_resp3.go:78-245 | an empty line, an unknown type, a boolean other than t and f, a float or number that does not parse: an error |
| RespCodec.NegativeSizes | transport_resp3.go:107-236 | what a size below zero gives, for every counted type |
| RespCodec.RenderSays | transport_resp3.go:47-54 | integers print in decimal that reads back, booleans and nil as words, strings as they are |
| RespRoundTrip.ReadInvertsEncode | transport_resp3.go:78-245 | reading any well-formed reply tree followed by any bytes gives its meaning and leaves those bytes, after what a nested error left behind |
| RespRoundTrip.ReadInvertsEncodeAll | transport_resp3.go:132-140 | replies sent back to back are read in order |
| RespRoundTrip.DenoteLeaves | transport_resp3.go:134-137 | a reply with an error yields a server error, one without a value; nothing of it stays unread exactly when no error is followed by anything |
| RespRoundTrip.ReplyConsumedIff | transport_resp3.go:174-184 | one read consumes an encoded reply exactly when no error in it is followed by anything |
| RespRoundTrip.NestedErrorLeavesElements | transport_resp3.go:134-137 | a concrete array whose first element is an error leaves its second element unread |
| RespRoundTrip.VerbatimTextIff | transport_resp3.go:221-236 | a verbatim string's text is returned exactly when it is not empty |
| RespRoundTrip.CutReplyIsShort | transport_resp3.go:260-270 | a prefix of an encoded reply reads as short exactly when it is cut before the end of the reply or of its first error |
| RespRoundTrip.BlocksSay | transport_resp3.go:107-121 | the bytes of a counted block, length first |
| RespRoundTrip.AggregatesSay | transport_resp3.go:123-185 | the bytes of arrays, sets and maps, count first |
| RespFrames.BuildMultibulk | transport_resp3.go:47-60 | the two loops produce the standard encoding of the array of rendered parts |
| RespFrames.FrameReads | transport_resp3.go:47-60 | the reader recovers every part of a frame, whatever bytes it contains, and stops where the frame ends |
| RespFrames.FramesAreUnambiguous | transport_resp3.go:55-59 | two frames followed by anything are equal byte strings only if parts and remainders are equal |
| RespReader.Reader.ReadFull | transport_resp3.go:260-270 | fills the buffer with exactly the next bytes and takes no more, or fails exactly when too few are left, for every chunking |
| RespReader.Reader.ReadResponse | transport_resp3.go:78-245 | result and reader position are those of `Parse`, for every chunking; a size `make` refuses panics |
| RespReader.Reader.FillSlice | transport_resp3.go:132-140 | the element loop reads what `ParseMany` says and stops at the first failure |
| RespReader.Reader.FillMap | transport_resp3.go:152-164 | the entry loop builds the map of the pairs read, later duplicates winning |
| Resp3Transport.Transport.Execute | transport_resp3.go:282-337 | the retry loop does what `Execution` says, keeps `conn` and `reader` set together, and never falls out of the loop |
| Resp3Transport.Transport.TryOnce | transport_resp3.go:286-334 | one turn of the loop: redial on the second, write, read, keep or close |
| Resp3Transport.Transport.Close | transport_resp3.go:340-348 | closes the connection held, if any |
| Resp3Runs.ReplyAnswersFrame | transport_resp3.go:282-337 | if the server sends at most one reply per frame, a value or server error is the reply to the frame this call last wrote, read to its end; after any other error no connection is held |
| Resp3Runs.TruncatedReplyDropsConnection | transport_resp3.go:286-334 | in either attempt, a readable reply is an error that drops the connection exactly when not all of it arrived in time |
| Resp3Runs.RunStaysAligned | transport_resp3.go:282-348 | the same for every call of every run of calls and closes against every network, with no unread bytes between calls |
| Resp3Runs.KeptConnectionIff | transport_resp3.go:286-334 | in either attempt and however much of a well-formed reply arrives: the connection is dropped exactly when the reply is cut before its end or the end of its first error, and a kept one is clean exactly when no error in the reply is followed by anything |
| Resp3Runs.OneReplyIff | transport_resp3.go:134-137 | the assumption that a server sends at most one reply per frame holds of a well-formed reply exactly when no error in it is followed by anything |
| Resp3Runs.NestedErrorMisalignsNextCall | transport_resp3.go:320-324 | after an array whose first element is an error, the next call returns the array's second element |
| Resp3Runs.RetryDiscipline | transport_resp3.go:286-336 | at most two complete writes, the second exactly when the first one's reply could not be read and a redial and write succeed, on a new connection after the first was closed; nothing is resent after a value or server error |
| Resp3Runs.CallOutcome | transport_resp3.go:282-337 | the outcome of every call from any state against any network, by what its two attempts do: the first decides if it is answered, else the second, with its own answer or error |
| Resp3Runs.RetryRecovers | transport_resp3.go:286-312 | a first attempt that cannot dial, cannot write or reads no reply is no error to the caller when the second gets its answer |
| Resp3Runs.ErrorsAreTheSecondAttempts | transport_resp3.go:286-336 | a call ends in a connect, write or read error only if its second attempt failed so |
| Resp3Runs.RunAccountsForConnections | transport_resp3.go:286-348 | in every run the connections dialed and not closed are exactly the one held |
| Float64.RoundIsNearest | payload.go:117-120 | no float at all, integral or not, is closer to an integer than the one chosen |
| Float64.RoundError | payload.go:117-120 | the error is at most half the local spacing and ties keep an even significand |
| Float64.RoundIsMonotone | payload.go:117-120 | rounding keeps order |
| Float64.ExactIff | payload.go:117-120 | exactly the integers with a 53-bit significand survive, and 2^53+1 is the first that does not |
| Float64.FitsInt64Iff | response.go:233-234 | a 64-bit integer still fits int64 after rounding exactly when it is more than 512 below 2^63 |
| GoTypes.JsonFieldName | payload.go:83-99 | the wire name, omitempty and skip of a field tag |
| GoTypes.TagsSay | payload.go:83-99 | a struct declared with names, and `omitempty` for its optional fields, has exactly these wire names and options |
| GoTypes.TagForms | payload.go:83-99 | tags that give no name, or only an option |
| GoTypes.DashTags | payload.go:83-99 | a dash hides a field, a dash and a comma name it |
| GoTypes.EmptyIff | payload.go:162-180 | what `omitempty` drops, by type: false, zero, the empty string, nil, or without elements; never a pointer that leads anywhere, nor a struct |
| PayloadEncode.PayloadValue | payload.go:103-146 | the recursive encoder with its loops computes `Encode`, for every order of map iteration; byte slices of any declaration become strings |
| PayloadEncode.PayloadToMap | payload.go:27-80 | the entries of the struct or map behind the payload's pointers, none for anything else |
| PayloadEncode.EncodedFields | payload.go:53-79 | with distinct wire names a struct's entries are exactly its included fields |
| PayloadEncode.FieldTravelsIff | payload.go:53-79 | an exported field is absent exactly when it is a nil pointer, or optional and false, zero, empty or nil; any other pointer travels |
| PayloadEncode.HiddenDoNotTravel | payload.go:53-62 | a name only unexported fields have, or fields tagged away, does not occur |
| PayloadEncode.EncodesNil | payload.go:104-109 | only a pointer or interface chain ending in nil encodes as nil |
| PayloadDecode.AssignInto | response.go:74-209 | the recursive decoder with its loops computes `Assign`, for every order of map iteration: whether it succeeds, and what the target holds after success and after failure |
| PayloadDecode.AssignHasType | response.go:74-209 | whatever the source, after success and after failure the target holds a value of its type |
| PayloadDecode.StructFieldwise | response.go:181-204 | a struct decodes exactly when every field present decodes; up to the first that does not, each field holds what its own decode leaves, absent and later ones keep their value |
| PayloadDecode.NarrowTarget | response.go:115-132 | an integer target holds whatever integer any scalar source stands for modulo its width, equal exactly when it fits; an unsigned one refuses exactly the negative ones |
| PayloadDecode.WidthsWrap | response.go:115-132 | what integers beyond each width become |
| PayloadDecode.IntegerDecodes | response.go:115-132 | an int64 reply n is n in every integer target it fits, and refused by unsigned ones when negative |
| PayloadDecode.IntegerConverts | response.go:96-143 | an int64 reply as the nearest float, as whether it is not zero, as decimal text |
| PayloadDecode.FloatDecodes | response.go:96-143 | a float reply in every scalar target |
| PayloadDecode.TextDecodes | response.go:96-156 | a text or binary reply in every scalar target, byte for byte in text and byte ones |
| PayloadDecode.BoolDecodes | response.go:96-143 | a boolean reply in every scalar target |
| PayloadDecode.ShapesDoNotMix | response.go:157-206 | lists and maps are refused by scalars, and scalars by lists, maps and structs |
| PayloadDecode.NilClears | response.go:75-78 | nil leaves the zero value, type by type |
| PayloadDecode.ElementsDecode | response.go:157-170 | lists decode element by element, in order, or not at all |
| PayloadDecode.EntriesDecode | response.go:171-180 | maps decode entry by entry, or not at all |
| PayloadDecode.AnyHolds | response.go:80-84 | an untyped target holds a scalar reply at its own type |
| PayloadDecode.AnyHoldsElements | response.go:80-84 | and a list or map as one of what its elements are held as |
| PayloadRoundTrip.DecodeInvertsEncode | payload.go:27-146 | for every decodable type and every value of it, decoding what was encoded succeeds exactly when no unsigned integer comes back negative, and then gives the canonical form |
| PayloadRoundTrip.RoundTripIff | response.go:74-209 | the value itself comes back exactly when its integers survive float64, its pointers lead somewhere, its interfaces hold trees and the fields that do not travel are zero |
| PayloadRoundTrip.CanonIsIdentityIff | payload.go:103-146 | the canonical form of a value is the value exactly when it is faithful |
| PayloadRoundTrip.IntBackRounds | response.go:229-245 | up to 512 below 2^63 an integer comes back as the float nearest to it, and up to 2^53 as itself |
| PayloadRoundTrip.SmallIntegersAreFaithful | payload.go:117-120 | all integers up to 2^53 in magnitude are faithful |
| PayloadRoundTrip.ArraysDoNotDecode | response.go:206 | a fixed-size array encodes and never decodes |
| WireValues.ToWire | transport_rpc.go:52-88 | the wire value carries the Go value, with map entries in any order |
| WireValues.OnlyUtf8TravelsAsText | transport_rpc.go:58-62 | strings that are not UTF-8 travel as binary, at any depth |
| WireValues.ScalarsTravel | transport_rpc.go:52-72 | every other scalar on the wire |
| WireValues.ScalarsComeBack | transport_rpc.go:97-115 | every scalar off the wire |
| WireValues.FromWireValue | transport_rpc.go:97-133 | the recursive decoder with its loops computes `FromWire` |
| WireValues.FromWireInvertsToWire | transport_rpc.go:52-133 | whatever the entry order and UTF-8 branch, a value arrives in normal form, strings byte for byte |
| WireValues.NormIsIdempotent | transport_rpc.go:97-133 | a value in normal form stays as it is |
| WireValues.ResendIsIdentity | transport_rpc.go:52-133 | sending back what was received changes nothing |
| WireValues.FlatAndMapRepliesAgree | client.go:756-765 | a hash arrives as the same fields from a flat array and from a map, duplicates included |
| CommandMap.MapCommandToWire | client.go:414-697 | the switch, with its loops and its copy of the payload, maps every command as the table of wire commands and argument sources says |
| CommandMap.AppendEach | client.go:461-472 | the loop appends every element of a list field as printed |
| CommandMap.FieldSays | client.go:441-472 | what a field says as text, as an integer and as a list, whatever it holds |
| CommandMap.ByteSays | client.go:566-575 | what an element of a message says as a byte |
| CommandMap.AcceptedIff | client.go:375-381 | exactly thirteen SDK commands map to a queueable wire command, for every payload; none maps to TXQUEUE by itself |
| CommandMap.ScopedIsWrapped | client.go:419-439 | with a client id an accepted command becomes TXQUEUE with the id and the unscoped command and arguments, every other command is refused |
| CommandMap.ControlCarriesId | client.go:617-630 | a control command is never wrapped and carries the id first |
| CommandMap.ArgumentsArePlain | transport_rpc.go:85-86 | every argument of every request is a string or an integer, so the default case of `toWire`, which prints what it does not know, is never reached |
| StreamOffset.ConsumeRequest | stream.go:79-91 | the SREAD request of `Consume`, from the struct it declares, on either native transport |
| StreamOffset.OffsetOnWire | client.go:599-608 | for every uint64 offset: the wire integer is the rounded offset, off by at most half the local spacing; it is the offset exactly when 53 bits hold it or, within 512 of 2^63, by the choice of the conversion; 2^53+1 is the first altered |
| StreamOffset.OffsetIsMonotone | client.go:450-459 | among offsets more than 512 below 2^63 a later one is never sent as an earlier one |
| ModuleRequests.KeyRequests | kv.go:33-125 | from the struct the module declares: GET, DEL, EXISTS, INCR and DECR with the key |
| ModuleRequests.CollectionKeyRequests | list.go:124-139 | from the struct the module declares: HGETALL, LLEN, SMEMBERS and SCARD with the key |
| ModuleRequests.FieldRequests | hash.go:36-45 | from the struct the module declares: HGET and HEXISTS with key and field |
| ModuleRequests.HashSetRequest | hash.go:15-24 | from the struct the module declares: HSET with key, field and value, in this order |
| ModuleRequests.HashDelRequest | hash.go:79-88 | from the struct the module declares: HDEL with the key and the listed fields, or the single one |
| ModuleRequests.PushRequests | list.go:15-50 | from the struct the module declares: LPUSH and RPUSH with the key and the values in order |
| ModuleRequests.PopRequests | list.go:55-99 | from the struct the module declares: LPOP and RPOP with the key and the count, 0 without one |
| ModuleRequests.RangeRequest | list.go:104-121 | from the struct the module declares: LRANGE with key, start and stop |
| ModuleRequests.MembersRequests | set.go:15-31 | from the struct the module declares: SADD and SREM with the key and the members in order |
| ModuleRequests.MemberRequest | set.go:52-60 | from the struct the module declares: SISMEMBER with key and member |
| ModuleRequests.QueueRequests | queue.go:124-161 | from the struct the module declares: QDELETE and QSTATS with the queue |
| ModuleRequests.QueueConsumeRequest | queue.go:76-81 | from the struct the module declares: QCONSUME with queue and consumer |
| ModuleRequests.QueueMessageRequests | queue.go:104-121 | from the struct the module declares: QACK and QNACK with queue and message |
| ModuleRequests.QueueCreateRequest | queue.go:14-39 | from the struct the module declares: QCREATE with the name alone, whatever the configuration |
| ModuleRequests.RoomRequests | stream.go:108-145 | from the struct the module declares: SSTATS and SDELETE with the room |
| ModuleRequests.RoomCreateRequests | stream.go:13-43 | from the struct the module declares: SCREATE and SGETORCREATE with the room alone, whatever the limit |
| ModuleRequests.StreamPublishRequest | stream.go:58-64 | from the struct the module declares: SPUBLISH with room, event and data as printed |
| ModuleRequests.TopicPublishRequest | pubsub.go:15-21 | from the struct the module declares: PUBLISH with topic and payload as printed |
| ModuleRequests.SubscribeRequests | pubsub.go:37-67 | from the struct the module declares: SUBSCRIBE with the topics, UNSUBSCRIBE with the subscriber before them |
| ModuleRequests.BareRequests | pubsub.go:70-71 | from the struct the module declares: QLIST and SLIST, the topics in the words of each transport, and no statistics of the store |
| ModuleRequests.UtilityRequests | client.go:653-692 | PERSIST, KEYS, DEL and MGET from their payload maps |
| ModuleRequests.DatabaseRequests | client.go:655-660 | DBSIZE, FLUSHDB and FLUSHALL |
| ModuleRequests.AmountRequests | client.go:395-412 | INCRBY and DECRBY with the amount: integers as they are, anything else as JSON or printed |
| ModuleRequests.ManyRequest | client.go:676-685 | MSET with each pair's key before its value, in order |
| ModuleRequests.SupportedIff | client.go:474-697 | exactly which commands are supported outside a transaction, on both native transports alike |
| Utf8.SanitizeIsIdentityIff | client.go:232-235 | JSON changes exactly the strings that are not UTF-8, and a second trip changes nothing more |
| Utf8.ValidUtf8Iff | transport_rpc.go:58-62 | a string is valid exactly when it is the UTF-8 encoding of some Unicode scalar values |
| Utf8.SanitizeSays | client.go:232-235 | well-formed sequences stay, any other byte becomes the encoding of U+FFFD |
| JsonTrip.FieldReaches | client.go:244-250 | which fields of a struct reach the mapper and as what: by reflection those not nil pointers and not empty and optional, through JSON those `omitempty` and `omitzero` leave, with the option `string` as text |
| JsonTrip.TripIsIdentityIff | client.go:230-250 | for every payload whose field names are distinct and taken by JSON, the mapper gets the same on both native transports exactly when strings and keys are UTF-8, byte slices equal their base64, no field is put between quotes and each field is dropped by both transports or by neither |
| Transactions.SynapClient.SendCommand | client.go:197-263 | from the typed payload, by reflection or through JSON, and the scope's id: the frame sent is the one these determine, and nothing else is sent |
| Transactions.SynapClient.Scope | transaction.go:83-87 | a scope is a new client sharing the connection; the parent is untouched |
| Transactions.Tx.Control | transaction.go:119-156 | a control sends its command with the scope's id and extra fields, through the transport's own payload path; a watch without keys sends nothing |
| Transactions.ControlFrame | client.go:617-630 | a control's request is its verb, the id byte for byte on either transport, and the watched keys as the transport delivers them |
| Transactions.ControlVerbs | transaction.go:106-146 | MULTI, EXEC, DISCARD and UNWATCH with the id |
| Transactions.WatchVerb | transaction.go:119-125 | WATCH with the id and the keys, nothing for a watch without keys |
| Transactions.WatchedKeysArriveIff | client.go:244-250 | watched keys arrive byte for byte on the binary transport, and on RESP3 exactly when they are UTF-8 |
| Interchange.NilApartIff | client.go:208-256 | a struct's two payload maps differ in nil entries only exactly when each field is safe or nil where it travels one way |
| Interchange.TransportsSendTheSame | client.go:208-256 | a module's payload that is safe but for nils sends the same request on both native transports exactly when both refuse it or no argument prints one of those nils; every command but the listing of topics |
| Interchange.SetRequest | kv.go:16-28 | `Set` sends SET with key and value, and EX and the seconds when there are any |
| Interchange.SetSendsTheSameIff | kv.go:16-28 | `Set`, with or without a TTL, sends the same on both exactly when key and value are UTF-8 |
| Transactions.EmittedFrames | client.go:414-439 | a scope emits only its own controls and TXQUEUE frames of accepted writes with its id, a refused command nothing, a plain client never TXQUEUE |
| Transactions.QueuedIffIdNonEmpty | transaction.go:77-87 | an accepted write is queued exactly when the scope's id is not empty |
| Transactions.QueuedFrameReads | transport_resp3.go:47-60 | from a queued write's RESP3 frame the reader recovers id, inner command and every argument |
| Transactions.RepeatedFrameQueuesTwice | transport_resp3.go:286-336 | a queued write's frame delivered twice queues the write twice |
| RetriedTransactions.RetriedScopesAreIsolated | transport_resp3.go:282-337 | over the retrying connection, in every interleaving, a transaction's queue and batches are its own calls, each counted as often as its frame was served |
| RetriedTransactions.AsExpectedIff | transport_resp3.go:282-337 | the server stays what the caller expects, call after call, exactly when every write into an open transaction was served once and every control with an effect at least once |
| RetriedTransactions.ServedAtMostTwice | transport_resp3.go:286-336 | a frame is served at most twice, twice only if the first reply could not be read and a new connection took the frame; answered at the first attempt, exactly once |
| RetriedTransactions.AnsweredAtOnceIsExact | transport_resp3.go:286-336 | a transaction whose own calls were all answered at the first attempt is exact, whatever happens to the calls of others |
| RetriedTransactions.RetryAppliesTwice | transport_resp3.go:286-336 | for every accepted write there is a possible run MULTI, write, EXEC, with one reply lost, whose batch holds the write twice |
| Transactions.ScopesAreIsolated | transaction.go:81-87 | in every interleaving, a server queueing per id holds exactly the writes accepted through that id since MULTI, in order, and each EXEC applied exactly those |
| Transactions.OthersDoNotInterfere | README.md:245-249 | a transaction's outcome is what it would be had nobody else called |
| Transactions.CommittedRun | README.md:220-250 | MULTI, two writes, EXEC: one batch of the two, in order |
| Transactions.DiscardedRun | README.md:220-250 | after DISCARD nothing is left for EXEC |
| ServedBytes.StreamReads | transport_resp3.go:47-60 | reading off the stream of any requests' frames as many values as there are gives the requests back and leaves what follows |
| ServedBytes.StreamKeepsScopesIsolated | transport_resp3.go:47-60 | in every interleaving, a server that parses the stream of bytes holds for each transaction exactly what its caller issued, arguments as printed |
| ServedBytes.WiresKeepScopesIsolated | transport_rpc.go:208-223 | in every interleaving, a server that decodes the wire values, map entries in any order, holds for each transaction exactly what its caller issued, strings byte for byte |
| QueuePayload.PublishBody | queue.go:44-57 | the loop builds the payload struct holding the message's bytes as integers |
| QueuePayload.MessageMapsToItsBytes | client.go:565-580 | the request of a published message carries exactly its bytes, and the queue name as the transport delivers it |
| QueuePayload.MessageArrives | queue.go:44-61 | over the binary wire the server receives queue name and message byte for byte |
| QueuePayload.MessageArrivesOverResp3 | queue.go:44-61 | over RESP3 the server reads the message byte for byte, and the queue name byte for byte exactly when it is UTF-8 |
| Replies.ExecOutcome | client.go:861-867 | EXEC decodes to success exactly for a list of results, then with those results in order, and to an abort otherwise |
| Replies.ResultsArrive | transaction.go:135-146 | each result at its own type |
| Replies.HashSetAlwaysReportsFalse | hash.go:25-31 | on the binary transport `Set` on a hash reports false for every reply, which is right exactly when the reply is neither true nor a positive count |
| Replies.HashDelAlwaysReportsZero | hash.go:89-95 | on the binary transport `Del` on a hash reports zero for every reply, which is right exactly when the reply is nil or stands for zero |
| Replies.HashGetAll | hash.go:66-75 | a flat and a map reply decode alike: exactly when each value is a scalar or nil, and then to its fields printed; nil is an empty hash, anything else an error |
| Replies.HashFields | client.go:756-765 | the loop turns a flat array into the map of its pairs and passes anything else through |
| Replies.ReplyReachesCaller | client.go:729-829 | for twelve commands the mapping and the module's struct fit: the caller gets the reply as it decodes at the declared type, whatever that is |
| Replies.CountReachesCaller | list.go:124-139 | for every command whose reply is a count the caller gets the very number the server sent |
| Replies.OffsetReachesCaller | stream.go:64-76 | the offset of a published event is the number the server sent |
| Replies.MessageIdReachesCaller | queue.go:61-72 | the id of a published message is the text the server sent |
| Replies.ValueReachesCaller | kv.go:33-51 | a value is the bytes the server sent, nil stays nil |
| Replies.FieldReachesCaller | hash.go:36-55 | a field of a hash likewise |
| Replies.KeyFields | hash.go:25-110 | the fields modules of keys and hashes declare |
| Replies.CollectionFields | set.go:24-101 | the fields lists and sets declare |
| Replies.QueueFields | queue.go:65-147 | the fields queues declare |
| Replies.StreamFields | stream.go:47-131 | the fields streams and topics declare |
| Replies.RawReplies | client.go:817-850 | statistics and acknowledged subscriptions pass through |
| Replies.EmptyReplies | client.go:803-853 | what only succeeds is an empty map |
| Replies.ControlReplies | client.go:859-860 | a control succeeds exactly when the server says OK or true |
| Replies.ListReachesCaller | client.go:776-858 | for six commands the caller gets the elements of the reply, and none when it is no list |
| Replies.AnswerReachesCaller | client.go:709-798 | for four commands the caller gets whether the reply was true or a positive count |
| Replies.PopReachesCaller | client.go:768-775 | a pop gives its caller a list whether the server sent a list, one element or nil |
| Replies.CreatedReachesCaller | client.go:821-827 | `GetOrCreate` reports a new room exactly when the server says CREATED |
| Replies.SubscribersReachCaller | client.go:842-847 | the number of subscribers is found alone and inside a map, and is zero in a map without it |
| Push.RunIsSafe | pubsub.go:113-152 | in every interleaving: one close, no send after it, at most 64 buffered, received and buffered are the decoded messages in order less the dropped ones, and the counts add up |
| Push.SafeIffCloseWaits | kv.go:215-220 | no run panics exactly when the connection's close waits for a running callback |
| Push.FullBufferDropsNewest | pubsub.go:127-132 | the callback never blocks, and a buffer of 64 messages loses the newest |
| Push.FullBufferIsReachable | pubsub.go:127-132 | some run fills the buffer, and the next message is decoded and lost |
| Push.ShutdownCompletes | pubsub.go:138-143 | a shutdown that has begun can always finish |
| Push.ClosedOnlyDrains | pubsub.go:138-143 | after the channel is closed nothing is decoded or sent; it only drains |
| Push.Subscription.OnMessage | pubsub.go:117-133 | an uninterrupted callback is the frame and offer steps |
| Push.Subscription.Stop | pubsub.go:138-143 | an uninterrupted first stop is the three shutdown steps, a later one nothing |
| RpcTransport.RunKeepsOwned | transport_rpc.go:180-345 | in every run each dialed client is closed, shared, being opened or with one live subscription, and never two of these |
| RpcTransport.ReplacedIsClosedFirst | transport_rpc.go:190-206 | no step exchanges the shared client: it is closed and forgotten, and a new one is dialed only when there is none; nothing but its own cancel closes a subscription's connection |
| RpcTransport.FormerSharedAreClosed | transport_rpc.go:190-206 | in every run all clients ever shared have been closed but for the one shared now |
| RpcTransport.PushDialed | transport_rpc.go:233-241 | a subscription dials one new client or none |
| RpcTransport.PushOutcome | transport_rpc.go:257-268 | a refused subscription's client is closed and booked nowhere else, an acknowledged one's is handed out |
| RpcTransport.PushCancelled | transport_rpc.go:268 | a cancelled subscription's client is closed and nothing else changes hands |
| RpcTransport.SubscriptionsChangeBy | transport_rpc.go:233-334 | subscriptions begin with an acknowledgement and end with a cancel |
| RpcTransport.OthersEffect | transport_rpc.go:190-206 | what closing, dying, retiring and dialing do to the shared client |
| RpcTransport.EverythingCanBeClosed | transport_rpc.go:268-345 | cancelling every subscription and closing the transport leaves nothing open |
| RpcTransport.Transport.Connected | transport_rpc.go:190-206 | a working shared client is reused, a dead one closed and replaced |
| RpcTransport.Transport.OpenPush | transport_rpc.go:233-269 | a push connection of its own, on which only the subscribing command is issued; when the server refuses it is closed, is no subscription and is not handed out; the shared client is not involved |
| RpcTransport.Transport.CancelPush | transport_rpc.go:268-334 | cancel closes the subscription's own connection; that of a watch first issues KV.UNWATCH on it, if the server gave an id |
| WatchEvents.WatchEventFromEnvelope | kv.go:233-246 | a watch event's fields from its envelope, zero where missing or of another type |
| WatchEvents.VersionSays | kv.go:239-241 | a version is the integral part of a float, and 0 for anything else |
| WatchEvents.VersionIsExactIff | kv.go:239-241 | the version is the server's exactly when 53 bits hold it or, within 1024 of 2^64, by the choice of the conversion |
| WatchEvents.SeemsConsecutiveIff | kv.go:150-152 | of two versions below that, the second looks like the successor of the first exactly when it is and is at most 2^53, or when 2^53 was lost between them |

## Left out

- HTTP transport, authentication, TLS, deadlines and sockets: input and output. The HTTP transport sends the client id along but has no check that a command can be queued.
- Thunder's client and its MessagePack encoding are not part of this model; a wire value is a datatype, and that a connection's close waits for its callback is the assumption `Push.SafeIffCloseWaits` singles out.
- The JSON trip of replies on RESP3, `Raw` and `withClientID`. Of `encoding/json` itself `JsonTrip` takes what its documentation says of payloads: nearest floats, U+FFFD for bytes that are not UTF-8, base64, sorted keys, one field per name, the tag options `omitempty`, `omitzero` and `string`. Not modelled: types with a JSON or text encoding of their own (`time.Time`, `json.RawMessage`, `json.Number`) or an `IsZero` method, embedded structs, nesting deeper than its limit.
- The server's command table is not part of this model, so the wire names in the mapping's table cannot be checked against it.
- The server of `Transactions` queues per id and applies at EXEC; whether a watched key aborts EXEC is the server's. `RetriedTransactions` takes a frame to be served, if at all, before the next call begins.
- NaN, infinities, negative zero, 32-bit floats and the printing of floats: floats are the finite 64-bit ones, as reals.
- PayloadDecode.AssignInto: aliasing through pointers is not modelled; the decoder returns what its target holds afterwards.
- PayloadRoundTrip.RoundTripIff: nil and empty slices or maps are not told apart.
- JsonTrip.TripIsIdentityIff: for the same reason a nil slice or map, which JSON sends as null and `omitzero` drops, is taken as an empty one; structs with two fields of one name, or a name JSON refuses (a quote, a backslash), are left out here and in `FieldReaches`, as the modules declare none.
- Interfaces holding values of kinds without an encoding (channels, functions) and map keys other than strings.
- Running out of memory below the size at which `make` panics.
- The fields of `PushMessage`, `normalizeInts`, how the modules' methods word their errors, `Config`, request ids: easy.
- Push.RunIsSafe: the KV.UNWATCH call `Watch` makes before closing is not a step of its own, because its result is ignored.
