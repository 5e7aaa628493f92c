# coapserver: a verified model

This project models the logic of a small CoAP server and proves properties of it in Dafny 4.11.
`dafny verify dfyconfig.toml` checks everything.

The server has two threads. The server thread answers requests: it reassembles block-wise
uploads, reads resource values, creates resources on demand, and puts every accepted request
into a ring buffer. The queue thread takes requests out of the ring, formats their data, runs a
command on the text, and may store a new value in the resource. A third thread polls data
files that back resource values. Configuration strings go through a small substitution language.

## Files

- `Common.dfy`: shared datatypes, `size_t`, remainders by the ring size.
- `Ring.dfy`, `RingMachine.dfy`: the request queue, as an object and as a machine in which both
  threads move one memory access at a time.
- `BlockTransfer.dfy`, `BlockCache.dfy`: reassembly of block-wise uploads, as functions on a table
  and as an object with buffers that are allocated and freed by hand.
- `Base64.dfy`, `HexText.dfy`: the three formatters and decoders for them.
- `Template.dfy`, `TemplateLaws.dfy`, `Config.dfy`: the substitution language and the expansion of
  templates into resources.
- `DataFile.dfy`: a resource value that is a cache of a file.
- `ResourceMethod.dfy`: what the queue thread does with one request.
- `Server.dfy`, `ServerTheorems.dfy`: the whole server as a machine, its invariant, and what
  follows for clients.
- `CoapServer.dfy`, `SequentialRuns.dfy`: the code of one request and of one pass over the queue,
  and the proof that both are runs of the machine.
- `SessionTable.dfy`: the table of resumable TLS sessions.

## Main results

1. **The ring.** An interleaving keeps the ring a first-in first-out queue of `maxSize - 1` items if and
   only if no item is published by a *misled* call: one that took its full test in the *window* (`start`
   equals the ring size and `end` is the last slot), with nothing released between that test and the
   publishing. The full test is right exactly outside the window, which every ring of two or more
   slots can reach. Once a misled call has published, under every schedule in which no further full test is taken:
   a queue thread past both tests of a dequeue releases an item and the queue is right from then on; one between
   the two tests throws exactly if `end` is reset before the second one, and else does the same; anywhere else it finds
   no item at any poll while `maxSize` items wait. A further full test before a release always lets its call through,
   which then writes over the oldest item. In the last case, once both threads are back between calls, the ring behaves
   as a new one under every schedule, so the waiting items are not delivered while that new ring works as a queue. The header
   `inc/RequestQueue.hpp` claims thread safety without this exception; the model follows the code.
2. **The server.** Over every run without such a publishing (exactly those in which the ring is a bounded queue
   throughout), each request has one answer, which its path's configuration allows and which carries its own path
   and method. The processed requests are the promised ones (answered OK or
   CONTENT), in order, without loss or repetition. Each value is the fold of the stores of
   the processed requests, and each CONTENT answer is that fold as it was when the GET arrived; later reads never
   go back. A request that arrives while there is room is not refused, and once the queue has drained a GET
   is answered with the last promised upload. Creating dynamic resources on
   first use gives the same answers and values as having had them all along.
3. **Uploads.** However the blocks of different transfers interleave, each transfer completes once,
   with the concatenation of its blocks; blocks of a body whose first block was never seen fail. It tries to enter the queue once, under the path and method of its
   last request. Blocks of
   one body may also come in any order; what is delivered is characterised byte by byte.
4. **Data files.** For every run of sets, polls, and writes of other programs: no thread fails, and equal stamps mean
   that the value is the file's content whenever no set is under way, if and only if every write of another
   program outside a set gets a newer stamp (or writes the value), every reload finds its file, and what the last
   reload inside a set read is a prefix of the value being set. From every attached resource some run breaks
   the last of these, and no poll notices.
5. **Substitution.** The scanner computes parse-then-render, fails exactly on the three errors, agrees with
   its second copy, and obeys escaping, printing and cutting laws, two of them as equivalences.
6. **Processing.** The lines and the stored value of a request are those of its command on texts that independent
   decoders take back to the data.
7. **Formatters.** Base64 and Hex are inverted in both directions by decoders written from RFC 4648; reading the
   escapes of the Text formatter greedily recovers exactly the inputs that spell out no escape of their own.

Where the repository's prose and code differ, the model follows the code: the README says that a GET returns
the value of the resource, but a GET is refused when the queue is full, and it may store a value; the
formatters' `decode` encodes.

## Model

| member | source | states |
|---|---|---|
| Ring.CountIsDistance | src/RequestQueue.cpp:41-43 | the unsigned arithmetic of `count` yields the circular distance from start to end, also while `end` rests at the ring size |
| Ring.SettledCount | src/RequestQueue.cpp:12-43 | with both indices settled, count, full test and empty test agree with the number of queued items |
| Ring.AppendStep | src/RequestQueue.cpp:18-22 | slot write, increment and reset append one item to the queue's contents |
| Ring.RemoveStep | src/RequestQueue.cpp:32-36 | slot read, increment and reset remove the oldest item |
| Ring.RequestQueue.constructor | src/RequestQueue.cpp:5-10 | a new queue is empty |
| Ring.RequestQueue.Enqueue | src/RequestQueue.cpp:12-25 | appends the item, or fails and changes nothing exactly when `maxSize - 1` items are queued |
| Ring.RequestQueue.Dequeue | src/RequestQueue.cpp:27-39 | takes the oldest item, or throws exactly on an empty queue |
| Ring.RequestQueue.Count | src/RequestQueue.cpp:41-43 | returns the number of queued items |
| RingMachine.CountIsPending | src/main.cpp:88 | the consumer's count is exact whatever step the producer is at |
| RingMachine.FullTestIsRightIffOutsideWindow | src/RequestQueue.cpp:13 | the producer's full test is right in every reachable state but the window, where the ring is full and it says otherwise |
| RingMachine.EmptyTestIsRightIffEndReset | src/RequestQueue.cpp:28 | the empty test of dequeue alone is wrong in exactly one kind of state, `start` 0 with `end` at the ring size; the count guard keeps the consumer out of it |
| RingMachine.NoSlotRace | inc/RequestQueue.hpp:39-42 | producer and consumer never access the same slot at the same time |
| RingMachine.StepKeepsInv | src/RequestQueue.cpp:12-39 | every step but the publishing of a misled call keeps the correspondence between ring and queue |
| RingMachine.RingIsBoundedFifo | inc/RequestQueue.hpp:39-42 | for every interleaving: throughout it the dequeued items are a prefix of the accepted ones, at most `maxSize - 1` are pending, the consumer's count is exact and the guarded dequeue never throws, if and only if no misled call publishes |
| RingMachine.MisledIff | src/RequestQueue.cpp:13-19 | until it publishes, a call is misled exactly if its full test was taken in the window and nothing has been released since |
| RingMachine.AtomicReleaseIsSafe | src/RequestQueue.cpp:33-36 | if the increment and reset of `start` were one step every interleaving would be safe |
| RingMachine.DrainDeliversAll | src/main.cpp:87-91 | from every state the queue thread by itself delivers everything accepted, in order, in a number of steps that depends on where it is |
| RingMachine.OverfilledCallEnds | src/RequestQueue.cpp:19-36 | what becomes of the ring once a misled call has published, under every schedule in which no full test is taken, by where the consumer is: right from the next release on, an exception exactly if `end` is reset before the empty test, or no item at any poll while `maxSize` items wait |
| RingMachine.OverfullTestOverwrites | src/RequestQueue.cpp:13-18 | a full test taken while all `maxSize` slots are pending lets its call through, which writes over the oldest item |
| RingMachine.OverwrittenItemIsTaken | src/RequestQueue.cpp:27-36 | then a consumer that has passed both tests takes that newer item in place of the oldest |
| RingMachine.WaitingItemsAreLost | src/RequestQueue.cpp:12-43 | a ring whose threads are between calls with both indices at zero behaves under every schedule as a new one: what was waiting is not delivered while the new ring is a queue |
| RingMachine.TestInWindowLosesTheRing | src/RequestQueue.cpp:13-22 | one schedule from the window after which `maxSize` accepted items wait in a ring that looks new |
| RingMachine.TestInWindowCanBeHarmless | src/RequestQueue.cpp:13-22 | another one from the same state after which the queue is right, because an item was released in time |
| RingMachine.WindowIsReachable | src/RequestQueue.cpp:33-36 | every ring of at least two slots can reach the window with the producer about to test |
| RingMachine.SomeScheduleLosesTheRing | inc/RequestQueue.hpp:39-42 | for every ring of at least two slots some interleaving ends with `maxSize` accepted items waiting and a count of zero, and no continuation delivers them while the ring works as a new queue |
| BlockTransfer.ReceiveNonEmpty | src/Resource.cpp:275-286 | a non-empty block is laid over the buffer, resized to the announced total, and completes it exactly when it reaches that total |
| BlockTransfer.PlainRequestIsDelivered | src/Resource.cpp:303-308 | a request that is not blockwise delivers its data and leaves every entry alone |
| BlockTransfer.StrayBlockFails | src/Resource.cpp:244-253 | a blockwise block of a key without an entry is an error if it is not at offset 0, or no entry can be made |
| BlockTransfer.ReleasedBlockFails | src/Resource.cpp:275-296 | a continuation after delivery fails, unless it is empty and not at the end |
| BlockTransfer.EmptyBlock | src/Resource.cpp:261-302 | an empty block starts a body, waits, or at the end delivers the buffer as it is |
| BlockTransfer.KeysAreIsolated | src/Resource.cpp:242-302 | what the blocks of a key see and leave behind does not depend on the blocks of other keys |
| BlockTransfer.TransferCompletes | src/Resource.cpp:261-302 | contiguous non-empty blocks from offset 0 wait and then yield their concatenation, whatever the entry held and however totals vary |
| BlockTransfer.InterleavedTransfersComplete | src/Resource.cpp:228-312 | the same for any number of transfers, one after the other on a key (the last one perhaps unfinished) and interleaved over keys |
| BlockTransfer.BufferIsLatest | src/Resource.cpp:275-286 | each buffered byte is that of the latest covering block since the last block at offset 0, else zero |
| BlockTransfer.AnyOrderDelivers | src/Resource.cpp:261-302 | blocks of one body in any order and number, final one last, deliver the body with zeros at exactly the uncovered positions |
| BlockTransfer.LateBlocksFail | src/Resource.cpp:275-281 | after delivery every non-empty block at another offset than 0 is an error |
| BlockTransfer.StrayBlocksFail | src/Resource.cpp:244-247 | any number of blocks of a key without an entry fail until one is at offset 0 |
| BlockTransfer.CompletionNeedsStart | src/Resource.cpp:244-302 | a blockwise block completes a body only after a block of its key at offset 0 |
| BlockCache.Free | src/Resource.cpp:223-226 | a buffer is freed only if it was not freed before |
| BlockCache.SessionCache.Allocate | src/Resource.cpp:254-259 | a new buffer becomes the property of the key's entry |
| BlockCache.SessionCache.OpenEntry | src/Resource.cpp:244-273 | finds, restarts or makes the entry of a block, or fails on a stray block or a missing entry |
| BlockCache.SessionCache.SessionGetData | src/Resource.cpp:228-312 | status and body are those of reassembly, and every buffer ever allocated is freed or owned by exactly one entry |
| BlockCache.SessionCache.Expire | src/Resource.cpp:223-226 | dropping an entry frees its buffer, if it has one, exactly once |
| Base64.JoinParts | src/ResourceFormatter/ResourceFormatterBase64.cpp:19-39 | the shifts and masks are the four six-bit parts of the 24 bits of a group |
| Base64.DecodeInvertsEncode | src/ResourceFormatter/ResourceFormatterBase64.cpp:14-43 | the decoder of RFC 4648 section 4 recovers every input |
| Base64.EncodeInvertsDecode | src/ResourceFormatter/ResourceFormatterBase64.cpp:14-43 | every text that decoder accepts is what the formatter writes for its bytes |
| Base64.EncodeLength | src/ResourceFormatter/ResourceFormatterBase64.cpp:16-40 | four characters for every three bytes begun |
| Base64.PaddingCount | src/ResourceFormatter/ResourceFormatterBase64.cpp:28-39 | the padding is what is missing to a multiple of three bytes |
| Base64.EncodeSplits | src/ResourceFormatter/ResourceFormatterBase64.cpp:16-40 | the encoding distributes over a cut at a multiple of three bytes |
| Base64.Format | src/ResourceFormatter/ResourceFormatterBase64.cpp:14-43 | the loop writes the encoding that the decoder inverts |
| Hex.DecodeInvertsEncode | src/ResourceFormatter/ResourceFormatterHex.cpp:9-17 | a decoder of RFC 4648 section 8 (upper case) recovers every input |
| Hex.EncodeInvertsDecode | src/ResourceFormatter/ResourceFormatterHex.cpp:9-17 | every text that decoder accepts is what the formatter writes |
| Hex.Format | src/ResourceFormatter/ResourceFormatterHex.cpp:9-17 | the loop writes two upper-case digits for each byte |
| Text.OutputIsPrintable | src/ResourceFormatter/ResourceFormatterText.cpp:10-20 | only printable characters come out, between one and four for each byte |
| Text.RecoveredIffNoSpelling | src/ResourceFormatter/ResourceFormatterText.cpp:9-23 | reading escapes greedily gives the input back exactly when the input spells out no escape of its own |
| Text.Format | src/ResourceFormatter/ResourceFormatterText.cpp:9-23 | the loop passes the bytes from space to tilde through and writes every other one as a backslash, an `x` and its two lower-case digits; the text of a concatenation is the concatenation of the texts |
| Text.SpellsIsUnique | src/ResourceFormatter/ResourceFormatterText.cpp:9-23 | there is only one text that reads so against the data |
| Text.EncodeSplits | src/ResourceFormatter/ResourceFormatterText.cpp:9-23 | the text of two pieces of data is the text of one after that of the other |
| Template.ReadIndex | src/Config.cpp:250-255 | the digit loop takes all digits there are and wraps around like `size_t` |
| Template.TemplateReplace | src/Config.cpp:242-271 | the scanner returns the rendering of the parsed tokens, or the error of the first token that has none |
| Template.RenderFailsIff | src/Config.cpp:256-265 | rendering fails exactly if some token has no text, with the error of the first one |
| Template.SubstituteFailsIff | src/Config.cpp:256-265 | a string is rejected exactly for a malformed `$`, an index 0, or an index beyond the arguments |
| Template.RegexReplace | src/CoAPServer.cpp:234-264 | the second scanner renders over the captures of a match and turns every error into the empty string |
| Template.ScannersAgree | src/CoAPServer.cpp:249-254 | on captures equal to the arguments both scanners agree; the second one also accepts index 0 and the one past the last capture, and nothing else |
| TemplateLaws.EscapedIsLiteral | src/Config.cpp:247-248 | a string with every `$` doubled stands for itself |
| TemplateLaws.ParseInvertsPrintIff | src/Config.cpp:244-270 | printed tokens are read back exactly when no index is followed by a literal digit |
| TemplateLaws.ParseOfCutIff | src/Config.cpp:244-270 | parsing distributes over a concatenation exactly when the cut goes through no token |
| TemplateLaws.SubstituteOfCut | src/Config.cpp:242-271 | substitution distributes over every such cut |
| TemplateLaws.IndexIsArgument | src/Config.cpp:249-265 | `$` and a number stand for that argument, counted from 1, with the error of an index too large or zero; the number wraps around at 64 bits |
| TemplateLaws.IndexIsCapture | src/CoAPServer.cpp:241-258 | in the second scanner for that capture, counted from 0, and for nothing one past the last |
| TemplateLaws.LoneDollarIsMalformed | src/Config.cpp:266-268 | a `$` at the end or before another character is the error, whatever follows |
| TemplateLaws.LeadingZero | src/Config.cpp:250-255 | a zero in front of an index changes nothing |
| TemplateLaws.TwelfthArgument | src/Config.cpp:250-255 | `$12` is the twelfth argument |
| Config.GenerateMethod | src/Config.cpp:285-301 | a method's strings are substituted and the rest is kept; it fails exactly if some string does |
| Config.GenerateResource | src/Config.cpp:276-304 | the same for a resource, whose dynamic mark is dropped |
| Config.GenerateResources | src/Config.cpp:273-306 | appends the template's resources, each substituted, in order |
| Config.FindTemplate | src/Config.cpp:51-58 | finds the first template with the identifier |
| Config.Expand | src/Config.cpp:50-64 | declared resources, then those of each instance from the first template with its identifier; fails exactly if an identifier is missing or a string fails, with the error of the first such instance |
| Config.ReadMethod | src/Config.cpp:184-189 | the command is kept, and needs exactly one format, or reading fails |
| Config.RuleSurvivesExpansion | src/Config.cpp:285-301 | the rule on commands holds of every resource after expansion |
| DataFile.AttachIsCoherent | src/Resource.cpp:98-105 | attaching reads an existing file or writes the initial value, and ends coherent |
| DataFile.RunIsCoherent | src/Resource.cpp:147-213 | for every run: throughout it no thread fails and, whenever no set is under way, the recorded stamp is not ahead of the file's and equal stamps mean equal content, if and only if every step goes well |
| DataFile.ValueIsLast | src/Resource.cpp:148-213 | over every run the value is the argument of the last set that began or what the last reload read, whichever was later, else what it was |
| DataFile.FileIsLast | src/Resource.cpp:156-163 | over every run the file is what the last set or other program left |
| DataFile.PollOfMissingFile | src/Resource.cpp:176-180 | a poll that finds no file changes nothing |
| DataFile.ReloadRecordsCheckedStamp | src/Resource.cpp:182-208 | a reload reads the file as it is then and records the stamp its check saw, whatever happened in between |
| DataFile.ExternalWriteIsSeenIff | src/Resource.cpp:182-186 | another program's write keeps this exactly if its stamp is newer than the recorded one or the content is the value |
| DataFile.ReloadSurvivesIff | src/Resource.cpp:189-196 | remark: the reload fails exactly if the file has vanished since the check |
| DataFile.ValueInsideSet | src/Resource.cpp:148-160 | between assigning the value and writing the file, the value is what the last reload read, else the argument |
| DataFile.SetValueIsRightIff | src/Resource.cpp:147-166 | whatever happens inside a set, it ends coherent exactly if what the last reload inside it read is a prefix of the argument; a longer one is read past the end, any other leaves the cut argument in the file under the value's stamp |
| DataFile.PollsNoticeNothing | src/Resource.cpp:182-186 | polls change nothing once the recorded stamp is not behind the file's, even with different contents |
| DataFile.ReloadInsideSetValueLosesCoherence | src/Resource.cpp:147-213 | from every coherent state between calls, a run with a reload inside a set ends failed or with different contents under one stamp for good, whenever the content read is no prefix |
| DataFile.PollCatchesUp | src/Resource.cpp:175-213 | an uninterrupted poll makes the value the file's content; a second one changes nothing |
| DataFile.SetDuringPollIsKept | src/Resource.cpp:208-212 | a value set between check and reload is not lost |
| DataFile.LastWriteWins | src/CoAPServer.cpp:373-377 | after a write of another program that is noticed, a later poll makes its content the value |
| DataFile.Resource.constructor | src/Resource.cpp:98-105 | leaves the state that attaching is proved to reach |
| DataFile.Resource.SetValue | src/Resource.cpp:147-166 | value and file both become the argument, with the file's stamp recorded |
| DataFile.Resource.ValueUpdate | src/Resource.cpp:175-213 | is one uninterrupted poll: nothing changes without a file or a newer stamp, else value and stamp become the file's |
| ResourceMethod.Decode | src/ResourceFormatter.cpp:15-25 | each formatter's loop computes the text of its encoding |
| ResourceMethod.FormattedIs | src/ResourceFormatter.cpp:15-25 | the text of each format is what its decoder, or the byte-by-byte reading, takes back to the data |
| ResourceMethod.MakeHandler | src/ResourceMethod.cpp:9-17 | one formatter for each of the names STRING, HEX and BASE64, in order, or failure exactly on another name; a method with a command has one |
| ResourceMethod.HandleRequestQueueItem | src/ResourceMethod.cpp:129-214 | each formatter's line is the output of the command on its text, or the text itself without a command, with the text on the line before when command input is logged; a storing PUT or POST stores its data, a storing GET the line of its first formatter; the texts are pinned by decoders |
| ResourceMethod.LineCount | src/ResourceMethod.cpp:146-164 | one line for each formatter, two when command input is logged |
| ResourceMethod.StoredTextIsIdentity | src/ResourceMethod.cpp:146-163 | a storing GET with the Text formatter and no command keeps a printable value as it is |
| Server.InitialInv | src/CoAPServer.cpp:98-114 | a started server satisfies the invariant |
| Server.FindHandlerIs | src/Resource.cpp:127-133 | the method found is the first of the kind; none is found exactly if there is none |
| Server.FindPatternIs | src/CoAPServer.cpp:275-318 | the pattern found is the first that matches the path; none is found exactly if none matches |
| Server.StepKeepsInv | src/ResourceMethod.cpp:37-82 | every request, every step of `enqueue` and every step of the queue thread keeps it |
| ServerTheorems.SafeRunIff | inc/RequestQueue.hpp:39-42 | the runs these theorems speak of are exactly those in which the ring is a bounded queue throughout |
| ServerTheorems.AnswersFitRequests | src/ResourceMethod.cpp:37-82 | every request but the one under way has one answer: NotFound exactly if its path had no resource at the start and matches no pattern, else the one its path's configuration, or that of its first matching pattern, and its method allow, with the request's own path and method |
| ServerTheorems.ResourcesAreAsConfigured | src/CoAPServer.cpp:290-310 | every resource is what its path is configured to be; one that was created has the kind of the first pattern that matches its path |
| ServerTheorems.PromisedAreProcessedInOrder | src/ResourceMethod.cpp:49-73 | requests answered OK or CONTENT are processed once each and in that order; refused ones never |
| ServerTheorems.ValuesFollowProcessed | src/ResourceMethod.cpp:160-189 | each value is the fold of the stores of the processed requests |
| ServerTheorems.ContentsAreSnapshots | src/ResourceMethod.cpp:45-63 | each GET is answered with the value after the requests that had been processed when it arrived, and queued with the same or a later value |
| ServerTheorems.ReadsNeverGoBack | src/ResourceMethod.cpp:45-63 | a later GET sees all that an earlier one was answered or queued with |
| ServerTheorems.SecondReadIsFresh | src/ResourceMethod.cpp:45-49 | whatever the queue thread does between the two reads of a GET, the answer has the value at the arrival and the queue gets the value at the second read |
| ServerTheorems.RefusedIffFull | src/ResourceMethod.cpp:49-70 | a request is refused exactly when its full test finds `maxSize - 1` items pending and is not taken in the window |
| ServerTheorems.RoomOnArrivalIsEnough | src/ResourceMethod.cpp:49-70 | a request that arrives while fewer than `maxSize - 1` items are pending is never refused, whatever happens then |
| ServerTheorems.AtomicReleaseIsSafe | src/RequestQueue.cpp:33-36 | runs that do not separate increment and reset of `start` satisfy all of this |
| ServerTheorems.EverythingPromisedIsProcessed | src/main.cpp:86-92 | from every state the queue thread by itself processes everything promised |
| ServerTheorems.ValueOfLastUpload | src/ResourceMethod.cpp:183-189 | the last storing PUT or POST determines the value |
| ServerTheorems.ValueWithoutStores | src/ResourceMethod.cpp:160-189 | without a storing request the value stays the initial one |
| ServerTheorems.ValueOfLastStoringGet | src/ResourceMethod.cpp:150-163 | after a last storing GET the value is what its first formatter, and the command if there is one, leaves of the value it was queued with |
| ServerTheorems.GetSeesLastUpload | src/ResourceMethod.cpp:44-63 | in every continuation that answers it, a GET is refused or answered with the last storing upload processed before it arrived |
| ServerTheorems.DrainedGetSeesLastPromised | src/ResourceMethod.cpp:44-63 | once the queue has drained, a GET is answered with the last promised storing upload, whatever happens after its arrival |
| ServerTheorems.TransfersAreEnqueuedOnce | src/Resource.cpp:110-134 | over every run, every block of a transfer but the last is answered CONTINUE; the last one makes the only attempt to enqueue, with the whole body under its own path and method |
| ServerTheorems.UploadsWereStarted | src/Resource.cpp:244-302 | over every run, a block of a larger body is accepted or refused only after a block of its key at offset 0 |
| ServerTheorems.IncompleteBlockChangesNothing | src/Resource.cpp:115-124 | remark: a block answered CONTINUE or with an error leaves queue and resources alone |
| ServerTheorems.LazyIsEager | src/CoAPServer.cpp:266-319 | creating a resource on the first request for its path gives the same answers and values as having had it from the start |
| ServerTheorems.ResourcesAreCreatedOnce | src/CoAPServer.cpp:310 | at most one resource is ever created for a path |
| CoapServer.FindHandlerInOrder | src/Resource.cpp:127-133 | finds the first method of the kind, or none exactly if there is none |
| CoapServer.FindPatternInOrder | src/CoAPServer.cpp:275-280 | finds the first pattern that matches the path, or none exactly if none matches |
| CoapServer.CoAPServer.constructor | src/CoAPServer.cpp:14-49 | a new server has its static resources and an empty queue |
| CoapServer.CoAPServer.Enqueue | src/ResourceMethod.cpp:67-72 | the item is queued and answered with success, or refused with INTERNAL_ERROR |
| CoapServer.CoAPServer.HandleCoAPRequest | src/Resource.cpp:110-134 | answer, queue and block cache after a request to an attached resource |
| CoapServer.CoAPServer.HandleRequest | src/CoAPServer.cpp:266-319 | answer and state after a request to any path; NOT_FOUND exactly without a resource and a matching pattern, and a new resource is its first matching pattern's |
| CoapServer.CoAPServer.CreateResource | src/CoAPServer.cpp:275-310 | makes the resource of the first matching pattern, or gives the error to answer |
| CoapServer.ServeNowIs | src/ResourceMethod.cpp:37-82 | every branch of a request to an attached resource: answer, queue and block cache |
| CoapServer.HandleNowIs | src/CoAPServer.cpp:266-319 | every branch of a request to any path |
| CoapServer.ProcessNowIs | src/ResourceMethod.cpp:129-197 | a processed item changes only the value of its resource, to what the first method of its kind stores |
| CoapServer.CoAPServer.ProcessItem | src/ResourceMethod.cpp:129-197 | the resource's value after one processed request |
| CoapServer.CoAPServer.DrainQueue | src/main.cpp:88-91 | the loop processes every queued request in order and leaves an empty queue |
| CoapServer.DrainNowIs | src/main.cpp:88-91 | a pass processes every item, oldest first |
| SequentialRuns.RequestIsARun | src/ResourceMethod.cpp:37-82 | a request handled by that code is a run of the machine in which only the server thread moves |
| SequentialRuns.DrainIsARun | src/main.cpp:86-96 | a pass over the queue is a run in which only the queue thread moves |
| SessionTable.StoreTakesEffectIff | libcoap_gnutls_session_resumption.patch:16-34 | a store takes effect exactly when a free slot comes before the slots of its key |
| SessionTable.CountFree | libcoap_gnutls_session_resumption.patch:9-13 | every slot is free or holds one session |
| SessionTable.Table.FindSlot | libcoap_gnutls_session_resumption.patch:40-42 | the linear search finds the first slot with the key |
| SessionTable.RemoveForgetsIff | libcoap_gnutls_session_resumption.patch:54-65 | a removal forgets the key exactly when no two slots hold it |
| SessionTable.Table.Store | libcoap_gnutls_session_resumption.patch:16-34 | storing any key updates the map exactly when a free slot comes before its slots; while only absent keys are stored, exactly while fewer than 64 sessions are |
| SessionTable.Table.Retrieve | libcoap_gnutls_session_resumption.patch:37-51 | returns the data stored for the key, if any |
| SessionTable.Table.Remove | libcoap_gnutls_session_resumption.patch:54-65 | frees the key's first slot and touches no other key; while only absent keys are stored this removes the key from the map |

## Left out

- libcoap: PDU parsing, sessions, endpoints and the computation of cache keys are inputs of the model; blocks lie inside their announced total, and a request for a method without a handler is answered 4.05 by libcoap.
- TLS and DTLS setup, address resolution, command line, signals and thread shutdown: plumbing.
- JSON parsing: the model starts from configuration records; only the rule on commands is modelled.
- Regular expressions: matching is a parameter of the server model. The strings that a match substitutes (name, log file, data file) do not influence answers or values there; `Template.RegexReplace` models the substitution itself.
- Commands: the text a command leaves is a parameter that may depend on the number of the request, the formatter and the input; the environment of the process, its exit code and its time limit are not modelled.
- Log files, printing, time stamps of requests, observer notifications, and the options of a GET response: no proved property depends on them. A resource that asks for logging without a log file makes its constructor throw; the server model starts from resources that were constructed.
- Allocation failure: `new` is taken to succeed; a missing libcoap cache entry is modelled.
- ServerTheorems.ValuesFollowProcessed: is about resources without a data file; `DataFile` models a resource with one, by itself and not inside the server machine.
- RingMachine.RingIsBoundedFifo: assumes sequentially consistent atomics, which is what the code asks for, and a ring whose size is positive and at most 2^63.
- DataFile.RunIsCoherent: takes the check of the poll, the locked part of the reload, and the locked part of `setValue` as one step each, so no other program writes inside them.
- BlockTransfer.AnyOrderDelivers: all blocks of the body announce the same total.
- SessionTable.Table.Store: asks for a non-empty key, which every session has; an empty one marks a free slot.
- BlockCache.SessionCache.SessionGetData: cache entries are kept until they are dropped by `Expire`; when libcoap drops them is not modelled.
