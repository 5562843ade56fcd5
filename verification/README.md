# Order-preserving index keys and the mutation data path

This project models three parts of the Couchbase indexing repository and proves what they are for.

**The collatejson codec** (`secondary/collatejson`) turns N1QL values into byte strings that sort as
the values collate and decode back to the same values. Numbers are normal decimals: a sign, digits
without leading or trailing zero, an exponent. The codec is the one `NewCodec` returns: no length
prefix for arrays, one for objects, float64 numbers.

- `Common`, `Bytes`, `DecimalText`: what the parts share, byte strings with their comparison, decimal texts with their numbers.
- `IntCodec`, `FloatOrder`, `FloatCodec`, `Int64Text`, `StringCodec`: numbers and strings.
- `Collate`: the value model, the code of a value, collation, and the theorem that one carries the other.
- `N1qlCodec`: encoding and decoding with their loops; `Desc`: descending fields, in place on a buffer;
  `ArrayParts`: arrays taken apart and joined; `FixInt`: encodings of an earlier release.

**The sequence-number worker** (`secondary/common/dcp_seqno.go`): `SeqnoWorker` is a step system of
its two goroutines and their channels, shutdown included; `SeqnoInvariant` proves what every step
keeps, `SeqnoRuns` what follows for all schedules, `SeqnoReplies` what replies carry, and `SeqnoCode`
has the code of the steps as methods of a class.

**The mutation data path and a bounded monitor**: `DataportClient` binds streams to connections,
`Endpoint` gathers and flushes, `Server` keeps the record of active streams, `StreamNames` is about
the names they use, and `OpMonitor` is the operations monitor under any interleaving.

Decoders take the value and the bytes behind it as ghost parameters: their contracts hold for every
value and every suffix. Classes carry history as ghost fields (what was sent, added, taken, drained),
and methods tie their new state to the old one or keep an invariant that speaks of that history.

Where the code and its comments differ the model follows the code. The comment on `AddOperation`
says that it fails when the channel is full or the monitor closed; a caller can also be turned away
while others are on their way out, and `OpMonitor.TurnedAway` says exactly when. `ReverseCollate`
with a desc vector longer than the number of fields complements the whole code for every true entry
beyond the last field; `Desc.ReverseCollate` includes that.

## Model

| member | source | states |
|---|---|---|
| `DecimalText.ItoaIsShort` | secondary/collatejson/codec.go:88-106 | the decimal text of n has at most n digits and fewer for n >= 2, so length prefixes of length prefixes end |
| `DecimalText.SameLengthOrder` | secondary/collatejson/codec.go:88-106 | equally long digit texts are in byte order as their numbers are |
| `DecimalText.CanonicalIsItoa` | secondary/collatejson/codec.go:65-86 | a digit text without leading zero is the one text of its number |
| `DecimalText.ItoaBytes` | secondary/collatejson/codec.go:65-86 | digits are the ASCII bytes 48 to 57, the most significant first |
| `IntCodec.EncodePosInt` | secondary/collatejson/codec.go:88-106 | appends the recursive, length-prefixed code of a positive text |
| `IntCodec.EncodeNegInt` | secondary/collatejson/codec.go:108-121 | appends the same shape with sign, length codes and digits complemented |
| `IntCodec.EncodeInt` | secondary/collatejson/codec.go:65-86 | any text, empty, signed, unsigned or a spelling of zero, gets exactly the code of its kind |
| `IntCodec.TextCodeOfInt` | secondary/collatejson/codec.go:65-86 | every spelling of an integer, with or without plus sign, gets that integer's code |
| `IntCodec.EncodeItoa` | secondary/collatejson/codec.go:65-86 | the text of an integer is encoded to that integer's code, behind what was there |
| `IntCodec.NegIsMirror` | secondary/collatejson/codec.go:108-121 | codes of negative numbers are those of positive ones with bytes exchanged |
| `IntCodec.IntOrder` | secondary/collatejson/codec.go:65-121 | integers of any size are in byte order as their values are |
| `IntCodec.IntBytes` | secondary/collatejson/codec.go:65-121 | the very bytes of a code: 62, 45 or 48 in front, digits 48 + d, and 57 - d when complemented, behind the code of their number |
| `IntCodec.IntCodeEmbeds` | secondary/collatejson/codec.go:65-121 | whatever follows the codes of two integers, the smaller one's comes first; equal only for equal integers |
| `IntCodec.DoDecodeInt` | secondary/collatejson/codec.go:169-193 | reads exactly one length-prefixed text off the front and says how many bytes it took |
| `IntCodec.DecodeInt` | secondary/collatejson/codec.go:140-167 | the code of any integer in front of any bytes gives that integer's text and the exact number of bytes consumed |
| `FloatOrder.DigitsApart` | secondary/collatejson/codec.go:332-357 | different digit strings differ in value, and the end byte makes their byte order strict in both signs |
| `FloatOrder.DecimalsApart` | secondary/collatejson/codec.go:222-264 | of two different normal decimals one is smaller in value and in bytes, whatever follows |
| `FloatOrder.FloatCodeEmbeds` | secondary/collatejson/codec.go:222-264 | for normal decimals of either sign and zero, x < y exactly if the code of x is bytewise below that of y, and codes are equal only for equal decimals |
| `FloatOrder.FloatBytes` | secondary/collatejson/codec.go:222-264 | the very bytes around the exponent and the digits: 62 or 45 in front, the other at the end, 48 for zero |
| `FloatCodec.EncodeSD` | secondary/collatejson/codec.go:332-357 | the digits behind the point, complemented for negative numbers, and the opposite sign as end byte |
| `FloatCodec.EncodeFloat` | secondary/collatejson/codec.go:222-264 | scientific notation of any number is encoded to the code of the decimal it denotes |
| `FloatCodec.SciBytes` | secondary/collatejson/collate.go:644-680 | the very bytes of scientific notation that is encoded: point, e, sign, and the exponent padded to two digits by float formatting |
| `FloatCodec.DecodeSD` | secondary/collatejson/codec.go:361-378 | undoes EncodeSD |
| `FloatCodec.DecodeFloat` | secondary/collatejson/codec.go:270-305 | the code of any decimal gives back the text with its sign, digits and exponent |
| `Int64Text.ConvertToScientificNotation` | secondary/collatejson/collate.go:644-680 | the notation denotes exactly the int64, through float64 formatting or through its digits |
| `Int64Text.Float64Exact` | secondary/collatejson/collate.go:646-650 | rounding to 53 bits changes no integer inside the guard; it does change 2^53 + 1 |
| `Int64Text.UnitsNearest` | secondary/collatejson/collate.go:646-650 | the rounding is to the nearest multiple of the spacing of float64 values, of two the even one |
| `Int64Text.FloatText` | secondary/collatejson/collate.go:646-650 | the very bytes that float formatting writes: 0e+00, and d.ddde+xx with at least two digits of exponent |
| `Int64Text.WholeValue` | secondary/collatejson/collate.go:718-780 | a whole decimal denotes, as a real number, exactly the integer its padded digits spell |
| `Int64Text.DecimalOfIntOf` | secondary/collatejson/collate.go:718-780 | reading a whole decimal as an integer and back drops its trailing zeros and nothing else |
| `Int64Text.TryConvertFromScientificNotation` | secondary/collatejson/collate.go:718-780 | exactly the whole decimals in the range of int64 come out as integers, with the right digits and value; all others unchanged |
| `Int64Text.Int64IsShort` | secondary/collatejson/collate.go:744-748 | the cut at exponent 20 turns no int64 away |
| `Int64Text.Int64ThroughCode` | secondary/collatejson/collate.go:644-780 | every nonzero int64, the smallest included, survives encoding and decoding and is flagged as an integer; zero is not flagged |
| `StringCodec.StringOrder` | secondary/collatejson/codec.go:505-517 | escaped and terminated strings are in byte order as the strings are, whatever follows |
| `StringCodec.StringBytes` | secondary/collatejson/codec.go:505-517 | the very bytes: 1 behind 0, 254 behind 255, two zeros at the end |
| `StringCodec.SuffixEncodeString` | secondary/collatejson/codec.go:505-517 | escapes 0x00 and 0xFF and appends the terminator |
| `StringCodec.SuffixDecodeString` | secondary/collatejson/codec.go:519-557 | a string's code in front of any bytes gives the string and exactly those bytes |
| `Collate.NumberCarries` | secondary/collatejson/collate.go:542-558 | codes of numbers are in the order of their values whatever follows them |
| `Collate.ObjectCarries` | secondary/collatejson/collate.go:589-617 | codes of objects are ordered by number of properties, then by sorted names and values |
| `Collate.ValueCarries` | secondary/collatejson/collate.go:528-620 | at any nesting the code of the value that collates first is bytewise below, at a byte inside both codes |
| `Collate.CodesCollate` | secondary/collatejson/collate.go:528-620 | bytewise comparison of two codes agrees with collation; codes are equal only for equal values and none is a proper prefix of another |
| `Collate.RankDecides` | secondary/collatejson/collate.go:76-87 | missing, null, false, true, number, string, array, object: the earlier type collates and encodes first, whatever the values |
| `Collate.Layout` | secondary/collatejson/collate.go:76-90 | the very bytes around the parts of every code: types 1 to 6, 8 and 9, 7 for a length, 0 as terminator |
| `N1qlCodec.SortedKeysIncrease` | secondary/collatejson/collate.go:455-463 | the names come in increasing byte order |
| `N1qlCodec.SortProps` | secondary/collatejson/collate.go:455-463 | computes that one order from the map |
| `N1qlCodec.EncodeNumber` | secondary/collatejson/collate.go:542-558 | a number is the decimal it is written with, a float64 its shortest decimal; the same decimal gets the same code whether a float64 or an int64 holds it |
| `N1qlCodec.Int64sFit` | secondary/collatejson/collate.go:542-558 | the decimals that can come as an int64 are those of the integers from -2^63 to 2^63 - 1 |
| `N1qlCodec.SharesCode` | secondary/collatejson/collate.go:542-558 | a float64 and an int64 share their code exactly if the shortest decimal of the float64 denotes the int64 |
| `N1qlCodec.TwoTo62` | secondary/collatejson/collate.go:644-680 | so the float64 2^62, written 4.611686018427388e+18, and the int64 2^62 have different codes |
| `N1qlCodec.Encode` | secondary/collatejson/collate.go:528-620 | n1ql2code computes the code of any value |
| `N1qlCodec.EncodeArray` | secondary/collatejson/collate.go:568-588 | the elements' codes in the array's frame |
| `N1qlCodec.EncodeObject` | secondary/collatejson/collate.go:589-617 | length, then names and values in sorted order, in the object's frame |
| `N1qlCodec.GetDatum` | secondary/collatejson/collate.go:468-477 | splits at the first terminator |
| `N1qlCodec.DecodeNumber` | secondary/collatejson/collate.go:848-868 | the shortest decimal comes back exactly, through the int64 or the float64 |
| `N1qlCodec.Decode` | secondary/collatejson/collate.go:800-996 | the code of any value in front of any bytes gives that value and exactly those bytes, at any depth; without decoding it is stepped over |
| `N1qlCodec.DecodeArray` | secondary/collatejson/collate.go:877-920 | all elements, in order |
| `N1qlCodec.DecodeObject` | secondary/collatejson/collate.go:922-992 | all properties, under their names |
| `Desc.DescOrder` | secondary/collatejson/desc.go:8-27 | composite keys with the same fields complemented compare fieldwise with those fields inverted |
| `Desc.FlipBits` | secondary/collatejson/desc.go:29-38 | complements the slice and no other byte |
| `Desc.AppendShared` | secondary/collatejson/desc.go:208-209 | append into the buffer that the slice shares writes exactly the appended bytes behind it |
| `Desc.GetEncodedDatum` | secondary/collatejson/desc.go:42-51 | ends behind the first terminator, complemented or not |
| `Desc.GetEncodedString` | secondary/collatejson/desc.go:53-87 | ends behind the two terminators, over escaped bytes, complemented or not |
| `Desc.ReadLength` | secondary/collatejson/desc.go:182-196 | reads the number of properties through complementing in place, and restores the bytes |
| `Desc.SkipObject` | secondary/collatejson/desc.go:179-229 | steps over an object and leaves every byte as it was |
| `Desc.FindField` | secondary/collatejson/desc.go:158-176 | finds the field asked for by stepping over those before it |
| `Desc.ExtractEncodedField` | secondary/collatejson/desc.go:90-231 | finds exactly the bytes of the field asked for, for any mix of complemented fields, and leaves every byte of the buffer as it was |
| `Desc.FlipIsToggle` | secondary/collatejson/desc.go:11-27 | complementing what is found at a position toggles that field, or everything when there is no such field |
| `Desc.ToggledTwice` | secondary/collatejson/desc.go:8-27 | toggling twice with the same desc vector, of any length, is nothing |
| `Desc.ReverseCollate` | secondary/collatejson/desc.go:11-27 | toggles the fields named by desc, whichever are complemented already |
| `Desc.ReverseTwice` | secondary/collatejson/desc.go:8-27 | twice with the same desc vector restores every byte of any encoded value |
| `Desc.ReversePlain` | secondary/collatejson/desc.go:11-27 | on a plain key exactly the descending fields end up complemented |
| `Desc.ReverseBoth` | secondary/collatejson/desc.go:11-37 | after ReverseCollate two keys compare bytewise as their fields do with the descending ones inverted |
| `ArrayParts.JoinArray` | secondary/collatejson/array.go:215-235 | joins parts in order; the codes of values give the code of the array of those values |
| `ArrayParts.ExplodeArray4` | secondary/collatejson/array.go:173-212 | the codes of all elements in order, or an error exactly for what is no array |
| `ArrayParts.ExplodeArray3` | secondary/collatejson/array.go:109-170 | position i is reached exactly if it is 0 or at most explodeUpto and there is such an element; its slots then hold code and value if asked for, all others what they held |
| `ArrayParts.ExplodedAt` | secondary/collatejson/array.go:109-170 | a slot after k elements holds the element's code exactly if it is among them and asked for, otherwise what it held |
| `ArrayParts.ValuedAt` | secondary/collatejson/array.go:109-170 | a visited slot holds the value if asked for and nothing otherwise |
| `ArrayParts.ExplodeThenJoin` | secondary/collatejson/array.go:173-235 | joining the parts of an array gives its code back |
| `ArrayParts.JoinThenExplode` | secondary/collatejson/array.go:173-235 | taking a joined array apart gives the parts back |
| `ArrayParts.ExplodeBoth` | secondary/collatejson/array.go:109-212 | ExplodeArray3 agrees with ExplodeArray4 at every position asked for and visited |
| `FixInt.ConvertKeepingZeros` | secondary/collatejson/collate.go:684-713 | the notation of an earlier release keeps all digits of the integer |
| `FixInt.OldSciDenotes` | secondary/collatejson/collate.go:684-713 | and denotes the integer's decimal with its trailing zeros standing |
| `FixInt.EncodeKeepingZeros` | secondary/collatejson/collate.go:684-713 | an int64 encoded that way is one of the spellings that get fixed |
| `FixInt.CanonicSpelled` | secondary/collatejson/collate.go:1069-1203 | the spelling without extra zeros is what the encoder writes |
| `FixInt.GetStringDatum` | secondary/collatejson/collate.go:1205-1225 | everything of a string's code but its last terminator, whatever bytes are escaped |
| `FixInt.FixNumber` | secondary/collatejson/collate.go:1086-1110 | a number with any trailing zeros is rewritten to its one code |
| `FixInt.FixArray` | secondary/collatejson/collate.go:1117-1149 | every element is rewritten, in order |
| `FixInt.FixObject` | secondary/collatejson/collate.go:1151-1201 | every value is rewritten under its name |
| `FixInt.FixEncodedInt` | secondary/collatejson/collate.go:1069-1203 | at any nesting, whatever zeros the numbers kept, the result is the one code of the same value and the bytes behind remain |
| `FixInt.FixCanonical` | secondary/collatejson/collate.go:1069-1203 | canonical encodings are left as they are |
| `SeqnoCode.Worker.Accept` | secondary/common/dcp_seqno.go:250-262 | a request joins the list of its collection, or starts one and is sent to be fetched |
| `SeqnoCode.Worker.ProcessResponse` | secondary/common/dcp_seqno.go:194-221 | answers the counted requests with the result, and the others with an error on shutdown |
| `SeqnoCode.Worker.Handle` | secondary/common/dcp_seqno.go:263-278 | answers, and sends the last of the requests that came meanwhile to be fetched with their number |
| `SeqnoCode.Worker.DrainMap` | secondary/common/dcp_seqno.go:232-237 | every waiting request gets an error, once |
| `SeqnoCode.Worker.DrainRequest` | secondary/common/dcp_seqno.go:239-242 | a request nobody took gets an error |
| `SeqnoCode.Worker.EndFetch` | secondary/common/dcp_seqno.go:309-322 | the result carries the count found on the request when the fetch is over |
| `SeqnoCode.Worker.DrainQueued` | secondary/common/dcp_seqno.go:292-303 | a request never fetched for gets an error from the fetching goroutine |
| `SeqnoCode.Worker.DrainResult` | secondary/common/dcp_seqno.go:227-230 | a result that still arrives answers its counted requests, the others of its list get an error |
| `SeqnoCode.Worker.BeginFetch` | secondary/common/dcp_seqno.go:306-315 | the next request leaves workerQueue and its fetch begins |
| `SeqnoCode.Worker.StepAccept` | secondary/common/dcp_seqno.go:250-262 | the code leads from the state before taking a request to the state after it, field by field |
| `SeqnoCode.Worker.StepHandle` | secondary/common/dcp_seqno.go:263-278 | the code leads from the state before taking a result to the state after it, field by field |
| `SeqnoCode.Worker.StepDrainResult` | secondary/common/dcp_seqno.go:227-230 | the code leads from the state before draining a result to the state after it, field by field |
| `SeqnoCode.Worker.StepDrainMap` | secondary/common/dcp_seqno.go:232-237 | the code leads from the state before draining the map to the state after it, field by field |
| `SeqnoCode.Worker.StepDrainRequest` | secondary/common/dcp_seqno.go:239-242 | the code leads from the state before draining a request nobody took to the state after it, field by field |
| `SeqnoCode.Worker.StepBeginFetch` | secondary/common/dcp_seqno.go:306-315 | the code leads from the state before beginning a fetch to the state after it, field by field |
| `SeqnoCode.Worker.StepEndFetch` | secondary/common/dcp_seqno.go:309-322 | the code leads from the state before ending a fetch to the state after it, field by field |
| `SeqnoCode.Worker.StepDrainQueued` | secondary/common/dcp_seqno.go:292-303 | the code leads from the state before draining workerQueue to the state after it, field by field |
| `SeqnoCode.RunFits` | secondary/common/dcp_seqno.go:194-327 | what this code relies on holds in every state of a run: the list of a result's collection is there, long enough and without repetition, and every request at hand is known |
| `SeqnoInvariant.HandleOneFlight` | secondary/common/dcp_seqno.go:263-278 | taking a result keeps one fetch in flight for each collection with waiting requests, unless shutdown took it |
| `SeqnoInvariant.HandleCovered` | secondary/common/dcp_seqno.go:263-278 | taking a result keeps each fetch's count within the list, and all requests it may answer taken before it began |
| `SeqnoInvariant.HandleSettled` | secondary/common/dcp_seqno.go:194-278 | taking a result keeps the number of replies exact: none while a request waits, one afterwards, one more if drained from workerQueue |
| `SeqnoInvariant.KeepsInv` | secondary/common/dcp_seqno.go:194-327 | every step of either goroutine, the reader and other workers keeps all of this, and the timeliness of replies |
| `SeqnoRuns.Always` | secondary/common/dcp_seqno.go:182-333 | all of this holds after every schedule of the two goroutines and the reader |
| `SeqnoRuns.NeverStale` | secondary/common/dcp_seqno.go:194-323 | sequence numbers delivered to a request come from a fetch for its collection that began after the worker took the request |
| `SeqnoReplies.KeepsSourced` | secondary/common/dcp_seqno.go:194-327 | every step keeps every result and reply that of a fetch that has ended: its collection, sequence numbers and error |
| `SeqnoReplies.RepliesAreFetched` | secondary/common/dcp_seqno.go:194-327 | in every run a reply carries exactly the sequence numbers and the error with which the fetch ends that begins, for the request's collection, at the step the reply names |
| `SeqnoReplies.SeesEarlierWrites` | secondary/common/dcp_seqno.go:306-323 | so a caller sees every write of its collection that preceded the taking of its request, if a fetch returns what was written before it began |
| `SeqnoRuns.OneFetchEach` | secondary/common/dcp_seqno.go:247-283 | until shutdown exactly the collections with waiting requests have a fetch in flight, just one, with a count between one and their number |
| `SeqnoRuns.AnsweredOnce` | secondary/common/dcp_seqno.go:194-283 | until shutdown a request has one reply once it no longer waits, and none before |
| `SeqnoRuns.AllAnswered` | secondary/common/dcp_seqno.go:223-245 | when processRequest has finished every request has been answered, and twice exactly if it was drained from workerQueue |
| `SeqnoRuns.AtMostTwice` | secondary/common/dcp_seqno.go:290-303 | never more than two replies, and two only for a request drained on shutdown |
| `SeqnoRuns.PlacesCounted` | secondary/common/dcp_seqno.go:268-271 | in every run dispatcherCh holds exactly what has been put into it and not taken out, and never more than it has places |
| `SeqnoRuns.ShutdownEnds` | secondary/common/dcp_seqno.go:223-327 | once reqCh is closed no schedule is longer than the work left |
| `SeqnoRuns.StuckExactly` | secondary/common/dcp_seqno.go:223-327 | after that the worker cannot go on exactly if both goroutines have ended, or processRequest waits for a place in dispatcherCh while fetchSeqnos waits for it |
| `SeqnoRuns.HeldUpForever` | secondary/common/dcp_seqno.go:268-271 | nobody reads dispatcherCh any more, so the second case lasts for ever and no request is answered in it |
| `SeqnoRuns.CanBeHeldUp` | secondary/common/dcp_seqno.go:268-271 | and it can come about whenever a worker reports while nothing waits to be fetched |
| `StreamNames.StreamIdsApart` | secondary/common/mutation.go:81-84 | keyspace, vbucket and session can be read back off the name, whatever the keyspace is called |
| `StreamNames.NamesAre` | secondary/dataport/server.go:106-108 | both kinds of names spelled out |
| `StreamNames.ActiveIdsApart` | secondary/dataport/server.go:106-108 | two streams share a name exactly if vbuckets and the joined addresses and keyspaces agree; without '#' in addresses only if they are the same stream |
| `StreamNames.ActiveIdsCollide` | secondary/dataport/server.go:106-108 | with a '#' in an address two streams of different remotes can share a name |
| `DataportClient.RemoveString` | secondary/common/util.go:197-207 | all occurrences go, the rest keeps its order |
| `DataportClient.Client.AddVbucket` | secondary/dataport/client.go:128-144 | a connection with the fewest streams takes the new one, the first if it is one of them; refused exactly if the stream is live anywhere |
| `DataportClient.Client.DelVbucket` | secondary/dataport/client.go:146-152 | the stream leaves every connection |
| `DataportClient.Client.Deliver` | secondary/dataport/client.go:314-322 | the batch goes to its stream's channel, and the stream is released at once exactly if the batch ends it |
| `DataportClient.TidyEnd` | secondary/dataport/client.go:314-322 | in the history a stream is released directly behind the batch that ends it, and never otherwise |
| `DataportClient.Client.SendBatch` | secondary/dataport/client.go:296-327 | sends, quits or crashes exactly as the stream's state and the batch's first command demand; afterwards the stream is bound exactly if the batch does not end it, and no other stream is touched |
| `DataportClient.Client.SendKeyVersions` | secondary/dataport/client.go:287-329 | the non-empty batches go out, once and in order, up to the first at which the client crashes, is told to quit or has no channel; then the streams bound are those whose last batch does not end them, and while none has ended the loads of connections differ by at most one |
| `DataportClient.Client.SendVbmap` | secondary/dataport/client.go:248-285 | succeeds exactly if the vbuckets are different and none is live in session 0; every connection is told exactly its own vbuckets, in order |
| `DataportClient.InvBind` | secondary/dataport/client.go:128-144 | binding keeps every live stream on one connection, named by vbChans, and loads within one of each other |
| `DataportClient.InvRelease` | secondary/dataport/client.go:146-152 | ending a stream keeps all other streams where they are |
| `DataportClient.InvSend` | secondary/dataport/client.go:314-322 | a batch goes to the channel its stream is bound to, behind everything sent there before |
| `DataportClient.SameConnection` | secondary/dataport/client.go:287-329 | batches of a stream with no new binding in between went to the same connection |
| `Endpoint.Endpoint.AddKeyVersions` | secondary/dataport/endpoint_buffer.go:29-47 | non-empty key-versions go behind those of their stream, in a batch that keeps its first vbuuid, and no other batch is touched; others go nowhere |
| `Endpoint.AddConserves` | secondary/dataport/endpoint_buffer.go:29-47 | adding keeps what was delivered and what is buffered together equal to what was added, stream by stream and in order |
| `Endpoint.Endpoint.Pack` | secondary/dataport/endpoint_buffer.go:112-138 | the packet is the buffer's batches, each once, in whatever order the map is read |
| `Endpoint.FlushConserves` | secondary/dataport/endpoint_buffer.go:112-142 | flushing keeps the same balance, whether or not the connection takes the packet |
| `Endpoint.Endpoint.Flush` | secondary/dataport/endpoint.go:453-469 | one packet with the whole buffer goes out, exactly if something was counted and the send succeeds; the buffer is empty afterwards |
| `Endpoint.Endpoint.Send` | secondary/dataport/endpoint.go:480-512 | below the buffer size the mutation is only buffered and the timer armed; otherwise one packet goes out with all that was buffered and the mutation, and the loop ends exactly if that fails |
| `Endpoint.Endpoint.FlushTick` | secondary/dataport/endpoint.go:560-573 | the tick sends the whole buffer in one packet and disarms the timer |
| `Endpoint.Endpoint.SyncTick` | secondary/dataport/endpoint.go:575-605 | one message for some vbucket whose stream has begun and not ended, sent at once with all that was buffered; nothing happens if there is no such vbucket |
| `Endpoint.Endpoint.ResetConfig` | secondary/dataport/endpoint.go:514-546 | new settings take effect, a new timeout restarts the timer, and buffered mutations keep an armed timer |
| `Endpoint.Endpoint.Stop` | secondary/dataport/endpoint.go:553-558 | after the last flush the packets sent are, stream by stream, everything added |
| `Endpoint.TrackedFollows` | secondary/dataport/endpoint_buffer.go:59-73 | the record of streaming vbuckets follows the last begin or end of each |
| `Endpoint.WholeHistory` | secondary/dataport/endpoint_buffer.go:112-142 | with an empty buffer and no send error the batches sent are exactly the key-versions added, in order |
| `Server.KeepsExactly` | secondary/dataport/server.go:253-319 | a batch passes exactly if its stream is active or begins in it, and is not another address's |
| `Server.Server.ParseVbs` | secondary/dataport/server.go:253-319 | prunes in place: those that pass stand in front in their order, and the record of streams is as the batches say |
| `Server.Server.ParseVb` | secondary/dataport/server.go:258-315 | one batch: whether it passes, and the record after it |
| `Server.Server.ParseKvs` | secondary/dataport/server.go:272-307 | its key-versions: the record after them, counters included, and whether a stream began or ended |
| `Server.Server.HandleVbMap` | secondary/dataport/server.go:388-394 | every vbucket of the map becomes active under session zero |
| `Server.Server.NewConnection` | secondary/dataport/server.go:329-347 | a second connection from an address is turned away |
| `Server.Server.HandleError` | secondary/dataport/server.go:498-548 | reports exactly the vbuckets of the streams on that address, each once, and removes exactly those streams; nothing for an address already gone or no error |
| `Server.Server.Append` | secondary/dataport/server.go:887-903 | behind what the report lists already, exactly the vbuckets of the address's streams, each once |
| `Server.Server.DelUuids` | secondary/dataport/server.go:204-215 | removes exactly the streams named |
| `Server.AlwaysFiled` | secondary/dataport/server.go:193-202 | in every run streams are filed under their own names |
| `Server.StaysActive` | secondary/dataport/server.go:253-406 | in every run a stream stays active until a StreamEnd of its own session, a replacing StreamBegin or vbmap, or an error on its connection |
| `Server.BeginLeaves` | secondary/dataport/server.go:258-282 | a StreamBegin without a StreamEnd behind it leaves the record of its address, keyspace, 16-bit vbucket and session, with the mutations since counted; with one it leaves none |
| `Server.NoBeginLeaves` | secondary/dataport/server.go:283-299 | a batch without StreamBegin leaves an active stream active exactly if it has no StreamEnd or is of another session, and touches no other stream |
| `Server.PassesExactly` | secondary/dataport/server.go:264-315 | a batch goes to the application exactly if the stream of its address, keyspace and vbucket is active and that address's, or begins in it |
| `Server.VbMapLeaves` | secondary/dataport/server.go:388-394 | a vbmap makes its 16-bit vbuckets active in session 0 with nothing counted and touches no other stream |
| `Server.LateEndKeeps` | secondary/dataport/server.go:283-299 | any number of StreamEnds of another session take no stream away and change no other stream |
| `Server.BatchRecord` | secondary/dataport/server.go:272-307 | a batch leaves its stream's record absent or present, and the counters on it, exactly as the last StreamBegin, the StreamEnds behind it and the mutations between say; all other streams are left alone |
| `Server.TalliedIs` | secondary/dataport/server.go:302-305 | the counter grows by the number of mutations, as a uint64 does |
| `Server.SumWraps` | secondary/dataport/server.go:302-305 | the counter is added to modulo 2^64 |
| `Server.CountsAll` | secondary/dataport/server.go:283-307 | the counter of a stream that stays active misses mutations that go to the application exactly if they stand behind a StreamEnd in their batch |
| `Server.ConnectedExactly` | secondary/dataport/server.go:383-406 | a step keeps every active stream's address among the connections exactly if it is not a late message: a vbmap, or batches that leave a stream active, from an address that is gone |
| `Server.AlwaysConnected` | secondary/dataport/server.go:383-406 | in every run without late messages active streams are connected |
| `Server.LateStays` | secondary/dataport/server.go:504-507 | what a late message leaves active no error on its address takes away |
| `Server.LateBegin` | secondary/dataport/server.go:275-280 | such a message: a StreamBegin of an address without connection |
| `Server.NeverForeign` | secondary/dataport/server.go:264-271 | without '#' in addresses no batch is filtered as another address's |
| `OpMonitor.KeepsCounted` | secondary/common/op_monitor.go:110-167 | every atomic step keeps the counter equal to the operations admitted plus callers about to take their increment back, and those admitted within maxOps |
| `OpMonitor.Always` | secondary/common/op_monitor.go:110-214 | and so does every interleaving of callers, monitor and Close |
| `OpMonitor.Bounded` | secondary/common/op_monitor.go:110-128 | admitted operations never exceed maxOps |
| `OpMonitor.SendsNeverBlock` | secondary/common/op_monitor.go:124-140 | a send under the read lock finds room in the channel and the channel open |
| `OpMonitor.ReadersGoOn` | secondary/common/op_monitor.go:110-140 | whoever is inside the read lock can take a step |
| `OpMonitor.WaitingEnds` | secondary/common/op_monitor.go:203-205 | once Close waits for the lock new readers are held back, and no schedule in which it does not get the lock is longer than the steps ahead of it |
| `OpMonitor.CloseGetsLock` | secondary/common/op_monitor.go:203-205 | in every run: when nobody else can take a step the lock can be taken, and it can be taken exactly when no reader is inside |
| `OpMonitor.NothingSentOnClosed` | secondary/common/op_monitor.go:203-214 | nothing is sent once the channel is closed |
| `OpMonitor.TurnedAway` | secondary/common/op_monitor.go:118-122 | a caller is turned away exactly when maxOps operations and callers being turned away are counted |
| `OpMonitor.TurnedAwayFromEmpty` | secondary/common/op_monitor.go:106-122 | so a caller can be turned away although nothing is monitored |
| `OpMonitor.OperationsMonitor.AddOperation` | secondary/common/op_monitor.go:110-128 | run alone: added exactly if open and not full, by these steps |
| `OpMonitor.OperationsMonitor.HandleOperation` | secondary/common/op_monitor.go:142-167 | run alone: the operation is completed, put back behind the others, or dropped on a closed monitor |
| `OpMonitor.OperationsMonitor.Close` | secondary/common/op_monitor.go:203-214 | run alone: flag and channel are closed; a second call does nothing |

## Left out

- Malformed encodings: decoders are modelled on encodings of values, followed by any bytes; their error returns and recovered panics are not.
- strconv float formatting and parsing: taken as a contract, a float64 is written as, and read from, its shortest decimal, for an integer that is not rounded that integer's own; NaN and infinities are not modelled.
- Buffer capacity on encoding: appends are to values, so that sizing and sharing of the caller's buffer are not modelled there; `Desc` works in place on an array.
- arrayLenPrefix, the int64 and string number types, EncodeLD and DecodeLD, json2code and code2json: not on the path of N1QL keys.
- N1qlCodec.ParseFloat: reads the decimal a decoded text spells, not the rounding of texts that no float64 writes.
- IntCodec.DecodeInt: stated for the codes of integers, with any bytes behind them.
- ExplodeArray and ExplodeArray2: the same loops as ExplodeArray3 and ExplodeArray4 over code2json.
- The reader that dispatches requests to workers, and FetchSeqnos with its connections: a fetch is any result, begun at one step and ended at a later one.
- Steps of the worker that only close a channel, leave a loop or report: in the step system, without a method of the class.
- SeqnoRuns.StuckExactly: sends on reqCh, workerQueue, internalCh and to callers find room; of the channels only dispatcherCh has its capacity.
- Statistics, logging, last activity times, sequence order checks and the Ctime of key-versions in the endpoint.
- Timers: a timer that runs may fire at any time; harakiri is the same step as Close.
- The transmitters behind the client's connection channels, network transport and protobuf encoding: a batch is a value, and a send fails or not.
- Key-versions without commands in the client, which the endpoint never sends.
- DataportClient.Client.SendVbmap: a vbmap's vbuckets and uuids are one list of pairs.
- Server.Server.ParseKvs: records are values in the map; that the loop's pointer is no longer the record in the map is a flag.
- N1qlCodec.EncodeNumber: says nothing of the float64 behind a decimal; float64 2^62 is written 4.611686018427388e+18, int64 2^62 4.611686018427387904e+18, and their codes differ.
- N1qlCodec.DecodeNumber: exact for the decimal, not for the float64 it was written from; the code of float64 2^62 comes back as int64 4611686018427388000.
- ResetConnections, Close and the workers of the server's connections: no change to the record of streams.
- Rounds and batch sizes of the operations monitor: it may take an operation whenever there is one; timeouts only call back.
