# Swish, modelled and proved

Swish is a message-passing runtime for Chez Scheme. Its C layer hands work from foreign threads to
the Scheme thread, runs one SQLite worker thread for each database, moves bytes between libuv
streams and Scheme objects, and hashes with an incremental SHA-1. This project models those parts
of the C layer, and two of the Scheme programs that ship with it: the coalescing fetcher of a
package proxy and the pattern matcher for compound conditions.

`dafny verify dfyconfig.toml` checks everything.

| file | subject |
|---|---|
| `SendRequest.dfy` | `osi_send_request` as a transition system: any number of threads, barging, spurious wake-ups, failing sends |
| `SendRequestCode.dfy` | the code of `osi_send_request` and its async callback over the global slot; each stretch of code is one or two steps of the protocol |
| `DatabaseProtocol.dfy` | Scheme thread, worker thread, async completion and statement records of one database |
| `DatabaseCode.dfy` | the intrusive doubly linked statement list on the heap, and the functions of `sqlite.c` over `database_t` |
| `Sha1Spec.dfy` | SHA-1 on bit strings, as FIPS 180-3 sections 4.1.1, 4.2.1, 5.1.1 and 6.1.2 define it |
| `Sha1Padding.dfy` | padding in bytes against padding in bits |
| `Sha1Example.dfy` | the worked example of RFC 3174 section 7.3, which holds the definition to a published digest |
| `Sha1Code.dfy` | the in-place implementation over `SHA1Context`, and its Scheme-facing wrappers |
| `Utf8.dfy` | the two-pass UTF-8 encoder against the grammar of RFC 3629 section 4 |
| `Bindings.dfy` | marshalling of SQL bindings over a heap of allocations that may refuse |
| `StreamPorts.dfy` | stream ports, locked Scheme objects and completion lists as a transition system |
| `StreamPortCode.dfy` | the code over `stream_port_t`, and the range checks on wrapped sums |
| `TcpConnect.dfy` | the retry loop over resolved addresses |
| `Fetcher.dfy` | the fetcher gen-server with workers that may die at any point |
| `ConditionMatch.dfy` | the greedy `extract` pass and the exchange argument for its completeness |
| `Options.dfy` | `Option` |

How the protocols are modelled. A state, an `Enabled` predicate and an `Apply` function give the
steps; a run is a sequence of events with the states between them. Theorems quantify over all runs
and all their positions. A history is never part of the state: each step emits at most a few
entries, a small automaton observes them, and the theorem says that the automaton is never broken
and where it stands. Runs are bounded by a potential that each step consumes. Where the source
updates fields in place, a class has those fields, and its methods are proved to take exactly the
protocol's steps.

Results that are not plain confirmations:

- When `uv_async_send` fails, `osi_send_request` returns without signalling the shared condition.
  If another thread wants the mutex at that moment the queue goes on, and later sends that succeed
  keep it going; if none does, everything stops, and queued callers stay queued until a new call or
  a wake-up for no reason (`FailureStrands`, `StrandedOrNot`). `StrandedCaller` is such a run.
- The comment in `extract` permits a more specific type ahead of its parent.
  `CompleteIffSpecificFirst` shows that the listing must be so: the greedy pass finds an assignment
  on every input that has one if and only if no listed type is preceded by a proper ancestor.
- The fetcher answers each call exactly once, but not always from the right worker. A worker that
  dies after its result has been handled still has its DOWN answer whoever waits on the path by
  then. While another worker is on the path, such a DOWN is misdirected: that step and no other
  parts a worker from its callers (`GoodStep`). Without one, two workers are never at work on one
  path (`OneFetchPerPath`); after one, a further call starts a second (`MisdirectedFetchesTwice`).
  `WhoseError` says whose error callers are told.
- The fetcher's worker sends its result before it closes its buffered port. What a caller told `#t`
  finds in place is the beginning of what the worker fetched, and all of it exactly when nothing is
  left in the port's buffer (`WholeWhenTold`). Closing the port empties it. If the worker dies before
  that, the file keeps just the bytes written out, however few or many (`ToldBeforeClosing`).
- `SHA1Input` goes on storing bytes after the one that reaches 2^64 bits; the next store leaves the
  block buffer. `SHA1Context.Input` says exactly when that happens.

## Model

| member | source | states |
|---|---|---|
| SendRequestProtocol.AlwaysSafe | src/swish/osi.c:1464-1512 | In every run of any number of threads, the callback never calls a null handler or signals a condition variable that its owner has destroyed; with the mutex free, a wake-up is outstanding exactly when a sender is registered |
| SendRequestProtocol.ServedExactlyOnce | src/swish/osi.c:1484-1512 | For every return of 0 there is one entry of that thread and, between the two, one run of that thread's own handler on its own payload, and nothing else on its behalf |
| SendRequestProtocol.ObservedInRun | src/swish/osi.c:1484-1512 | On every thread, entering, running and returning alternate in that order throughout every run |
| SendRequestProtocol.NeverLost | src/swish/osi.c:1488-1491 | While sends succeed, whenever callers wait their turn and none is registered, somebody is obliged to signal or to look again |
| SendRequestProtocol.DeadlockFree | src/swish/osi.c:1484-1512 | While sends succeed and some call is unfinished, a step other than a new call or a spurious wake-up is enabled |
| SendRequestProtocol.RunBounded | src/swish/osi.c:1484-1512 | Any run takes at most 12 steps for a call and 3 for a spurious wake-up, so with finitely many of both it ends |
| SendRequestProtocol.FailureStrands | src/swish/osi.c:1492-1496 | Right after a failing send, some step other than a new call or a spurious wake-up is possible if and only if another thread wants the mutex |
| SendRequestProtocol.StrandedOrNot | src/swish/osi.c:1484-1512 | In every run with a failing send: if another thread wanted the mutex and later sends succeed, the run can go on while any call is unfinished; if none did, no step follows but new calls and spurious wake-ups, and queued callers stay queued |
| SendRequestProtocol.StrandedCaller | src/swish/osi.c:1492-1496 | A run of three callers, the last of which waits for ever after a failing send |
| SendRequestCode.SendRequest.constructor | src/swish/osi.c:1530-1532 | The slot starts as the protocol's initial state |
| SendRequestCode.SendRequest.Enter | src/swish/osi.c:1485-1486 | A null handler gets EINVAL, the Scheme thread EPERM, and only those are refused before the mutex |
| SendRequestCode.SendRequest.Acquire | src/swish/osi.c:1487 | Taking the free mutex, first or after a wait, is the protocol's step |
| SendRequestCode.SendRequest.TakeTurn | src/swish/osi.c:1489-1506 | From the test of the sender to the next wait: wait when someone is registered, return the error of a failing send, otherwise send and register |
| SendRequestCode.SendRequest.Retest | src/swish/osi.c:1504-1511 | Waits again while registered; otherwise destroys its condition variable, signals one waiter, releases and returns 0 |
| SendRequestCode.SendRequest.EnterCallback | src/swish/osi.c:1464-1466 | One wake-up is consumed by one entry of the callback |
| SendRequestCode.SendRequest.AsyncCallback | src/swish/osi.c:1466-1473 | In every state a run can reach, the callback has a handler to call and a live condition variable to signal, runs the stored request of the registered sender, and clears the slot |
| DatabaseProtocol.Exclusive | src/swish/sqlite.c:96-112 | Scheme-thread code past a busy check, and every completion callback, never overlaps a work function |
| DatabaseProtocol.DataMatches | src/swish/sqlite.c:250-327 | The union and the installed callback always match the work that is stored, running or awaiting completion; an idle database has a null union, no work, no wake-up and no callback |
| DatabaseProtocol.WorkerNeverForgets | src/swish/sqlite.c:96-112 | The worker sleeps on stored work only while the submitter has still to signal; it ends exactly with a successful close, which is joined before anything is destroyed |
| DatabaseProtocol.CompletedOnce | src/swish/sqlite.c:250-300 | Behind each completion lie exactly one accepted submission and one run of its work function. The completion carries the code that SQLite gave that run, or NOMEM for a prepare without memory, and, for a prepare, the statement that this very run created |
| DatabaseProtocol.RunOf | src/swish/sqlite.c:96-112 | Every completion that is queued was preceded by one run of the work function of its kind, on its data, with its result, and nothing lies between |
| DatabaseProtocol.RanLeaves | src/swish/sqlite.c:265-284 | The end of a work function leaves SQLite's code; a prepare leaves its statement at the head of the list, or NOMEM and the list as it was; nothing else makes a statement |
| DatabaseProtocol.SubmissionOf | src/swish/sqlite.c:712-729 | Every run of a work function was preceded by one accepted submission of that kind and data, and nothing lies between |
| DatabaseProtocol.ObservedInRun | src/swish/sqlite.c:661-729 | Accepting, running and completing alternate in that order throughout every run |
| DatabaseProtocol.FailedClose | src/swish/sqlite.c:218-248 | A close that fails leaves an idle database, an empty statement list, every statement finalized and a live worker |
| DatabaseProtocol.FinalizedAtMostOnce | src/swish/sqlite.c:218-229 | No SQLite statement is finalized twice; those not finalized are exactly those in the list, which holds no record twice and no detached one |
| DatabaseProtocol.RecordsKept | src/swish/sqlite.c:329-347 | A record comes into being exactly by a successful prepare and ceases exactly by an accepted finalize; a drain only detaches |
| DatabaseProtocol.NeverStuck | src/swish/sqlite.c:96-112 | As long as a request is not completed, a step towards its completion is enabled |
| DatabaseProtocol.RunBounded | src/swish/sqlite.c:96-112 | Runs are bounded by the requests, finalizes and spurious wake-ups in them; draining is paid for by the prepares |
| DatabaseCode.StatementList.LinkFirst | src/swish/sqlite.c:270-278 | Linking a new record in at the head keeps the list doubly linked and prepends to its contents |
| DatabaseCode.StatementList.UnlinkFirst | src/swish/sqlite.c:221-228 | A turn of the drain takes off the head and clears it; the new head's prev may dangle, everything else stays linked |
| DatabaseCode.StatementList.Unlink | src/swish/sqlite.c:338-344 | Splicing out a record anywhere in the list removes just that record and keeps the rest linked both ways and in order |
| DatabaseCode.StatementList.DrainFirst | src/swish/sqlite.c:220-229 | A turn of close_worker's loop is the protocol's drain step, and stops exactly on the empty list |
| DatabaseCode.StatementList.Prepend | src/swish/sqlite.c:270-278 | The list part of prepare_worker is the protocol's, with the new record at the head |
| DatabaseCode.StatementList.Finalize | src/swish/sqlite.c:329-347 | osi_finalize_statement frees a detached record whether or not the database is busy, an attached one only if it is not, and changes nothing otherwise |
| DatabaseCode.IdsRemoved | src/swish/sqlite.c:339-344 | Splicing a record out at a position is removing its number from the protocol's list |
| DatabaseCode.Database.constructor | src/swish/sqlite.c:160-165 | An opened database is the protocol's initial state |
| DatabaseCode.Database.Submit | src/swish/sqlite.c:713-719 | The head of each request, up to the mutex: EINVAL for a detached statement, otherwise EBUSY when busy, otherwise on its way with its callback installed |
| DatabaseCode.Database.Store | src/swish/sqlite.c:318-324 | The critical section of a submission is the protocol's step |
| DatabaseCode.Database.Signal | src/swish/sqlite.c:325-326 | The signal that follows is the protocol's step |
| DatabaseCode.Database.Complete | src/swish/sqlite.c:286-300 | A completion queues the callback of the request with its code; a successful prepare always has a statement to report; a successful close goes on to join |
| DatabaseCode.Database.Join | src/swish/sqlite.c:240-245 | The join ends the database, with an empty list |
| DatabaseCode.Database.FinalizeStatement | src/swish/sqlite.c:329-347 | Finalizing through the database is the protocol's step, also after a close |
| DatabaseCode.Database.Look | src/swish/sqlite.c:98-109 | The worker runs stored work or waits |
| DatabaseCode.Database.CloseWorkerTurn | src/swish/sqlite.c:220-229 | Turns of the drain continue exactly until the list is empty |
| DatabaseCode.Database.LinkPrepared | src/swish/sqlite.c:269-283 | With a statement prepared, prepare_worker links in a record at the head, or reports NOMEM and leaves the list alone |
| DatabaseCode.Database.WorkDone | src/swish/sqlite.c:265-284 | A work function stores exactly SQLite's code, for every kind of work; only prepare_worker changes it, to NOMEM, when the code is OK and malloc fails, and then finalizes the statement; otherwise it links in a record |
| DatabaseCode.Database.PostDone | src/swish/sqlite.c:104-106 | With the mutex again, the worker clears the work and sends the wake-up |
| DatabaseCode.Database.WaitOrExit | src/swish/sqlite.c:107-111 | The worker ends exactly after a close that succeeded, and waits otherwise |
| Sha1Code.MacroForms | src/swish/sha-private.h:13-26 | Both forms of the Ch and Maj macros compute the functions of FIPS 180-3 section 4.1.1 |
| Sha1Code.Expand | src/swish/sha1.c:259-267 | The 80-word array is the message schedule of FIPS 180-3 section 6.1.2 |
| Sha1Code.ChRounds | src/swish/sha1.c:275-282 | The first loop is rounds 0 to 19 of the single-indexed definition |
| Sha1Code.ParityRounds | src/swish/sha1.c:284-291 | The second loop is rounds 20 to 39 |
| Sha1Code.MajRounds | src/swish/sha1.c:293-300 | The third loop is rounds 40 to 59 |
| Sha1Code.LastRounds | src/swish/sha1.c:302-309 | The fourth loop is rounds 60 to 79 |
| Sha1Code.CompressBlock | src/swish/sha1.c:246-317 | The block function of the standard, whichever macros are compiled in |
| Sha1Code.SHA1Context.constructor | src/swish/osi.c:1425-1435 | An opened context is ready for an empty message |
| Sha1Code.SHA1Context.Reset | src/swish/sha1.c:80-97 | From any state, a context ready for an empty message |
| Sha1Code.SHA1Context.AddLength | src/swish/sha1.c:53-58 | The two words count bits modulo 2^64, and the error code is set exactly when the sum reaches 2^64 |
| Sha1Code.SHA1Context.ProcessMessageBlock | src/swish/sha1.c:246-317 | The intermediate hash absorbs the buffered block and the index returns to 0 |
| Sha1Code.SHA1Context.StoreByte | src/swish/sha1.c:128-131 | A byte is stored at the index and counted; the code is set exactly on the byte that reaches 2^64 bits, which leaves the index at 64 |
| Sha1Code.SHA1Context.Absorb | src/swish/sha1.c:127-136 | One byte extends the message by that byte, or overflows the counter on exactly the byte that reaches 2^64 bits, which also leaves the buffer full |
| Sha1Code.SHA1Context.Input | src/swish/sha1.c:119-139 | For data of any length: below the limit the message grows by the data; from the byte that reaches 2^64 bits the call fails; it stays inside the block buffer if and only if it ends by that byte. A computed or corrupted context stays failed, an empty input changes nothing |
| Sha1Code.SHA1Context.PadMessage | src/swish/sha1.c:373-404 | The blocks processed, one or two, are exactly the unprocessed rest of the padded message |
| Sha1Code.SHA1Context.Finalize | src/swish/sha1.c:338-347 | The hash is the SHA-1 of the message bits, and buffer and length are cleared |
| Sha1Code.SHA1Context.FinalBits | src/swish/sha1.c:160-187 | One to seven last bits complete the message and can never overflow the counter; all other uses fail with the code's own errors |
| Sha1Code.SHA1Context.Result | src/swish/sha1.c:209-225 | The digest has the bits of the SHA-1 of the message, each word most significant bit first, and is the same however often it is asked for; error codes are sticky |
| Sha1Code.SHA1Context.DigestOut | src/swish/sha1.c:220-222 | The shifting loop writes 20 bytes that have the bits of the five hash words, each most significant bit first |
| Sha1Code.SHA1Context.HashData | src/swish/osi.c:1437-1449 | Exactly the ranges that leave the bytevector are refused, on wrapped sums; every other range is an input of those bytes, with the same limit and errors |
| Sha1Code.SHA1Context.GetSHA1 | src/swish/osi.c:1451-1458 | The digest, in the bits of the message's SHA-1, of the message under way or already finished, after which the context is as good as a fresh one; a failed context stays failed |
| Sha1Code.DigestOfChunks | src/swish/sha1.c:80-225 | However a message of fewer than 2^64 bits is cut into chunks, with either macros, reset, inputs and result give bytes with the bits of its SHA-1, twice |
| Sha1Spec.PadInjective | src/swish/sha1.c:349-371 | Different messages of fewer than 2^64 bits have different paddings |
| Sha1Spec.PaddedLength | src/swish/sha1.c:353-360 | A padded message is a whole number of 512-bit blocks, with the length in the last 64 bits |
| Sha1Spec.FewestZeros | src/swish/sha1.c:353-360 | No padding with fewer zeros fits |
| Sha1Spec.PackBits | src/swish/sha1.c:259-264 | Packing the bits of bytes, most significant first, gives the bytes back |
| Sha1Spec.BitsPacked | src/swish/sha1.c:259-264 | The bits of a packed bit string of whole bytes are that string |
| Sha1Spec.PaddedBitsHashed | src/swish/sha1.c:349-371 | What the definition of SHA-1 hashes has exactly the bits of the padded message |
| Sha1Spec.WordOfBits | src/swish/sha1.c:259-264 | A word has the bits of its four bytes, in order |
| Sha1Spec.WordsBits | src/swish/sha1.c:259-264 | The sixteen words of a block have the bits of the block, 32 each, in order |
| Sha1Spec.ScheduleAt | src/swish/sha1.c:259-267 | The schedule is the block's words, then the recurrence of FIPS 180-3 section 6.1.2, at whatever length it is computed |
| Sha1Spec.DigestWord | src/swish/sha1.c:220-222 | Bytes 4 j to 4 j + 3 of a digest have the bits of the j-th hash word |
| Sha1Spec.DigestBits | src/swish/sha1.c:220-222 | A digest has the bits of the five hash words, in order |
| Sha1Example.AbcHash | src/swish/sha1.c:80-317 | The SHA-1 of the 24 bits of abc is the value published in RFC 3174 section 7.3, through all 80 words and rounds |
| Sha1Example.AbcDigest | src/swish/sha1.c:209-225 | Its digest is a9 99 3e 36 and so on, byte by byte |
| Sha1Padding.PaddedHash | src/swish/sha1.c:373-404 | Hashing the padded bytes is the SHA-1 of the message bits, for every message of bytes and up to seven bits more |
| Sha1Padding.PaddedSpells | src/swish/sha1.c:380-401 | Bytes, end byte, zeros and the two length words spell the padding of FIPS 180-3 section 5.1.1 |
| Sha1Padding.EndByteBits | src/swish/sha1.c:162-184 | The mask and mark-bit tables make the byte that holds the last bits, a 1 and zeros |
| Utf8.RoundTrip | src/swish/osi.c:128-170 | Decoding the code of any string of Unicode scalar values gives the string |
| Utf8.EncodesExactly | src/swish/osi.c:128-170 | The encoder is a bijection between such strings and the byte strings of RFC 3629 section 4 |
| Utf8.DecodedOnly | src/swish/osi.c:151-165 | Only well-formed byte strings are codes, and each is the code of what it decodes to |
| Utf8.CharRoundTrip | src/swish/osi.c:151-165 | One character's code is recognised and decoded whatever follows it |
| Utf8.CodeStands | src/swish/osi.c:150-165 | Every character's code is the one with its value in the table of RFC 3629 section 3: the payload bits add up, by place, to the character |
| Utf8.CharDecoded | src/swish/osi.c:151-165 | Encoding inverts decoding on every well-formed sequence |
| Utf8.PrefixFree | src/swish/osi.c:151-165 | No character's code is a prefix of another's |
| Utf8.LengthCounted | src/swish/osi.c:131-142 | The length that the first pass counts is the length that the second writes |
| Utf8.CountUtf8 | src/swish/osi.c:131-142 | The counting loop computes that length |
| Utf8.PutChar | src/swish/osi.c:150-165 | The shifts and masks store the character's code through the moving pointer and touch nothing beyond |
| Utf8.WriteUtf8 | src/swish/osi.c:148-166 | The writing loop fills the buffer with the code of the string |
| Utf8.StringToUtf8 | src/swish/osi.c:128-170 | No buffer and length 0 when malloc fails; otherwise the code, a nul that is not counted, and no byte more |
| BindingCode.Heap.SetBinding | src/swish/sqlite.c:363-394 | A binding stands for its datum, or the error says why not, with nothing allocated |
| BindingCode.Heap.FreeBinding | src/swish/sqlite.c:429-446 | The block of a binding is released and its pointer cleared, so a second release does nothing |
| BindingCode.Heap.FreeBindings | src/swish/sqlite.c:467-469 | Of a prefix of the array exactly the owned blocks are released |
| BindingCode.FillOne | src/swish/sqlite.c:462-473 | A turn of the filling loop; on failure everything marshalled so far and the array are released |
| BindingCode.MarshalList | src/swish/sqlite.c:449-474 | The list path marshals every element in order or leaves the heap as it was; a refusal has a cause |
| BindingCode.MarshalVector | src/swish/sqlite.c:475-497 | The vector path does the same |
| BindingCode.Marshal | src/swish/sqlite.c:448-499 | Both paths agree on the same data; anything else is EINVAL |
| BindingCode.ReadBack | src/swish/sqlite.c:396-414 | A binding read back is the datum it stands for, text through the encoder included |
| BindingCode.GetBindings | src/swish/sqlite.c:416-427 | What was marshalled comes back, in order, as a vector |
| BindingCode.Unmarshal | src/swish/sqlite.c:501-510 | Each block of the marshalled value is released once, and no other: the heap is what it was before marshalling |
| BindingCode.RoundTrip | src/swish/sqlite.c:363-510 | Marshal, read, unmarshal: the same values and the same heap; with memory enough it succeeds exactly on bindable data |
| StreamPorts.LockedIsHeld | src/swish/osi.c:407-548 | In every run the locked objects are, with multiplicity, exactly the buffers and callbacks of uncompleted requests of live ports |
| StreamPorts.CompletedOnce | src/swish/osi.c:407-548 | On each of a port's three channels accepted requests and completions alternate, each completion through the callback of its own request; at most one is pending |
| StreamPorts.SubmissionOf | src/swish/osi.c:407-548 | Behind every pending request lies its accepted submission on a quiet channel, and the port keeps its objects and its size until it completes |
| StreamPorts.ReadReports | src/swish/osi.c:407-416 | A read completes through the callback of its own submission with the number libuv gives: bytes read or error |
| StreamPorts.WriteReports | src/swish/osi.c:440-451 | A write completes through the callback of its own submission with libuv's error as it is, or else the size that was submitted |
| StreamPorts.CloseReports | src/swish/osi.c:520-538 | A close completes through the callback of its own submission with 0, just after end of file for a pending read |
| StreamPorts.PendingReadGetsEof | src/swish/osi.c:520-538 | A read pending when the port is freed is completed with end of file just ahead of the close, and no write is pending then |
| StreamPorts.DeliveredOnce | src/swish/osi.c:107-110 | The lists that osi_get_callbacks returns hold every completion once, newest first |
| StreamPorts.ReturnedList | src/swish/osi.c:1341-1358 | One call of osi_get_callbacks returns exactly what was completed during that call, newest first |
| StreamPorts.RunInv | src/swish/osi.c:407-548 | What libuv is doing on a port always matches what the port has registered |
| StreamPorts.LockStep | src/swish/osi.c:418-438 | Each step changes the locked objects by just what it changes in what ports hold |
| StreamPortCode.InRange | src/swish/osi.c:1327-1334 | The check on wrapped sums refuses exactly the empty range and the ranges that leave the bytevector |
| StreamPortCode.InRange2 | src/swish/osi.c:479-487 | The check of osi_tcp_write2 refuses exactly the ranges that leave the second bytevector and totals beyond 32 bits |
| StreamPortCode.StreamPort.constructor | src/swish/osi.c:774-777 | A new port has nothing registered |
| StreamPortCode.StreamPort.StartRead | src/swish/osi.c:424-437 | With no read pending, the protocol's step, undone again if libuv refuses |
| StreamPortCode.StreamPort.ReadStream | src/swish/osi.c:418-438 | Refused for an offset, as busy or by libuv with its error, the registration undone; otherwise the protocol's step |
| StreamPortCode.StreamPort.Read | src/swish/osi.c:1327-1334 | Accepted if and only if the range fits, no offset is given, no read is pending and libuv agrees; each refusal gives its own error, a range that does not fit changes nothing, and the region of an accepted read lies in the bytevector |
| StreamPortCode.StreamPort.AllocateRead | src/swish/osi.c:400-405 | The region handed to libuv is the accepted one, inside the bytevector |
| StreamPortCode.StreamPort.WriteStream | src/swish/osi.c:453-477 | Refused for an offset, as busy or by libuv with its error, the registration undone; otherwise the protocol's step. libuv is handed the given range, and the size to report is that of what it was handed |
| StreamPortCode.StreamPort.Write | src/swish/osi.c:1416-1423 | The same for writes; what is handed to libuv lies in the bytevector |
| StreamPortCode.StreamPort.Write2 | src/swish/osi.c:479-518 | Accepted if and only if the range and the total fit, no write is pending and libuv agrees, with an error for each refusal. Both bytevectors are locked, and unlocked again if libuv refuses; it is handed all of the first and the given range of the second, which fits, and the size to report is the sum |
| StreamPortCode.StreamPort.Close | src/swish/osi.c:540-548 | A second close is refused as busy; the first is the protocol's step |
| StreamPortCode.StreamPort.ReadCallback | src/swish/osi.c:407-416 | A read completion unlocks and clears, and queues the read's callback with the very number libuv gives |
| StreamPortCode.StreamPort.WriteCallback | src/swish/osi.c:440-451 | A write completion unlocks and clears, and queues the write's callback with a negative status as it is, or else the size that was submitted |
| StreamPortCode.StreamPort.CloseCallback | src/swish/osi.c:520-538 | The port is freed; the close callback is queued with 0, ahead of it the callback of a pending read with end of file |
| StreamPortCode.Osi.AddCallback1 | src/swish/osi.c:107-114 | A completion goes to the front of the list, which must be open |
| StreamPortCode.Osi.BeginCallbacks | src/swish/osi.c:1341-1342 | The first line of osi_get_callbacks takes the globals through the protocol's step that opens a list |
| StreamPortCode.Osi.EndCallbacks | src/swish/osi.c:1355-1357 | Its last lines take them through the step that returns the list, and return that list |
| StreamPortCode.StepApplies | src/swish/osi.c:407-548 | What a method does to its port, to the calls that lock and unlock, and to the list is the protocol's step: every object is locked as often as held |
| StreamPortCode.UnlocksLocked | src/swish/osi.c:407-548 | No step unlocks an object that is not locked |
| TcpConnect.FirstThatConnects | src/swish/osi.c:562-603 | For every outcome of the resolution, every address list and every mixture of failures at once and later: addresses in order and each once, one reply, one unlock, one free. Unresolved, no address is tried and the reply is uv_getaddrinfo with its error; otherwise it is the port for the first address that connects, or the last error with the port closed |
| TcpConnect.RetryEnds | src/swish/osi.c:565-580 | The loop ends with an attempt open or every address tried, never going back to an earlier address |
| TcpConnect.ConnectedEnds | src/swish/osi.c:562-587 | A callback for an open attempt replies, or moves on to a later address |
| TcpConnect.TcpRequest.Start | src/swish/osi.c:759-793 | On each of the four failures the caller learns it at once, and nothing stays locked or allocated but a handle being closed |
| TcpConnect.TcpRequest.ConnectCallback | src/swish/osi.c:562-587 | The loop in place is the retry function, and releases nothing twice; a connection replies with the port, left open |
| TcpConnect.TcpRequest.AddressCallback | src/swish/osi.c:589-603 | A failed resolution replies once, with uv_getaddrinfo and its error, and closes the port; otherwise the first address is tried and failures enter the loop |
| Fetcher.AnsweredAtMostOnce | examples/apt-archive/proxy.ss:158-200 | In every run no call is answered twice, and the assert on a DOWN never fails |
| Fetcher.NobodyStranded | examples/apt-archive/proxy.ss:178-200 | Whoever waits on a path waits for the worker last spawned on it, whose result, or death without one, is still to be handled |
| Fetcher.AllAnswered | examples/apt-archive/proxy.ss:145-200 | When the workers have ended and the mailbox is empty, every call has had exactly one reply and no list or worker is left |
| Fetcher.OnlyHandleReplies | examples/apt-archive/proxy.ss:165-200 | Only the server replies, and only it changes who waits |
| Fetcher.RequestHandled | examples/apt-archive/proxy.ss:167-187 | A call for a file that is there adds exactly the reply #t; offline, any other adds exactly #f; otherwise no reply is added, the caller goes to the front of the list of its path, and a worker is started if and only if nobody waited there |
| Fetcher.ResultHandled | examples/apt-archive/proxy.ss:191-193 | A result tells all who wait on its path, and nobody else, the status that its worker fetched for that path, a redirect's location included, and clears the list |
| Fetcher.DownHandled | examples/apt-archive/proxy.ss:194-200 | An abnormal DOWN tells all who wait on the path of its worker that error and clears the list; a normal one tells nobody |
| Fetcher.FetchedBefore | examples/apt-archive/proxy.ss:145-155 | What a worker has fetched, puts in place or sends is what it fetched in an earlier step, for its own path |
| Fetcher.FileFetched | examples/apt-archive/proxy.ss:149-155 | A file comes to be only from outside, or from a worker that has fetched #t for its path |
| Fetcher.FileThere | examples/apt-archive/proxy.ss:153-155 | A reply of #t goes only to callers whose target file exists |
| Fetcher.WholeWhenTold | examples/apt-archive/proxy.ss:149-155 | When a caller is told #t, a file that a worker renamed into place holds a prefix of what that worker fetched: all of it if and only if nothing is left in the buffer of its port, as when the port is closed |
| Fetcher.WholeWhenEnded | examples/apt-archive/proxy.ss:149-155 | A file whose worker has ended normally holds all that the worker fetched |
| Fetcher.ToldBeforeClosing | examples/apt-archive/proxy.ss:149-155 | For every body and every number of its bytes there is a run that ends with the caller told #t and just those bytes in the file |
| Fetcher.NeverStuck | examples/apt-archive/proxy.ss:145-200 | Until then the server has a message to handle or some worker can go on with its work, without dying |
| Fetcher.RunBounded | examples/apt-archive/proxy.ss:145-200 | A run takes at most eight steps of its own for a call, so it comes to that end |
| Fetcher.GoodStep | examples/apt-archive/proxy.ss:194-200 | A step keeps every worker whose result is to come alone on its path and with callers waiting, if and only if it is not a misdirected DOWN: an abnormal one while another worker is on the path |
| Fetcher.OneFetchPerPath | examples/apt-archive/proxy.ss:182-187 | As long as no DOWN is misdirected, no two workers are at work on the same path |
| Fetcher.MisdirectedFetchesTwice | examples/apt-archive/proxy.ss:178-200 | After a misdirected DOWN for a path being fetched, online and with the file absent, one more call and the server's next steps have two workers at work on it |
| Fetcher.WhoseError | examples/apt-archive/proxy.ss:194-200 | In every run, all who wait when an abnormal DOWN is handled are told its error; the worker they wait for is the one that died, or is still on its way and the DOWN is misdirected, or has died without a result and its own DOWN is still to come |
| Fetcher.MisdirectedFirst | examples/apt-archive/proxy.ss:194-200 | Up to and including the first misdirected DOWN of a run, one is misdirected if and only if the awaited worker is still on its way |
| Fetcher.LateDeathFetchesTwice | examples/apt-archive/proxy.ss:194-200 | A run with a misdirected DOWN: a caller is told the error of a worker it did not wait for, and two workers are at work on the path |
| Fetcher.LateDeathSpeaksForAnother | examples/apt-archive/proxy.ss:194-200 | A run in which that happens to a caller although nothing is misdirected, as the awaited worker has died as well |
| ConditionMatch.MatchSound | examples/dme/condition.ss:15-28 | Whatever the pass returns gives every listed type a condition of that type, and no condition twice |
| ConditionMatch.MatchIsGreedy | examples/dme/condition.ss:15-28 | The pass returns exactly the greedy assignment, each condition in the first free slot it fits, or fails when there is none, whatever the order of the types |
| ConditionMatch.Exchange | examples/dme/condition.ss:22-25 | With specific types first, placing a condition in the first fitting slot never loses the last completion |
| ConditionMatch.MatchIffAssignable | examples/dme/condition.ss:12-28 | With specific types first, the pass succeeds if and only if some injective assignment exists |
| ConditionMatch.CompleteIffSpecificFirst | examples/dme/condition.ss:12-28 | The pass finds an assignment on every input that has one if and only if specific types come first |
| ConditionMatch.TooFewDescendants | examples/dme/condition.ss:22-25 | Once an ancestor listed too early has taken the one condition that fits a later type, no continuation completes |
| ConditionMatch.FirstFit | examples/dme/condition.ss:21-27 | The cond takes the first unfilled slot whose type the condition has, or none |

## Left out

- `osi_interrupt_database` touches a busy connection on purpose and has no place in the exclusion theorem.
- Errors reported by `bind_bindings`: each later binding overwrites the code; a bulk's result code is whatever the worker stored.
- Opening a database, and the checks of a prepare ahead of its submission (not a string, out of memory, too long), which return without touching the database.
- Uses of a database after a successful close or of a record after its finalize, and a bulk over statements of different databases, are excluded by preconditions.
- A statement record and the SQLite statement in it go by one number; rows and columns read by `step_cb` are not modelled.
- The drain of `close_worker` is one step for each turn of its loop, since the Scheme thread reads `s->database` without the mutex.
- A second event loop: callbacks run one at a time on the Scheme thread, as in libuv.
- Null pointers given to the SHA-1 functions, and the static `addTemp` shared between contexts on different threads.
- Improper lists given to the marshaller, a vector length that does not fit an `int`, and `malloc(0)` returning null.
- BindingCode.GetBindings: reads text back with the strict decoder of RFC 3629; the decoder in Chez Scheme is not part of this model. The bits of a flonum are opaque.
- Bytevector and procedure type checks of the port functions; objects are opaque numbers.
- StreamPorts.CompletedOnce: takes from libuv that writes are cancelled before the close callback, that no read callback follows uv_close, and that I/O cannot start on a closing handle.
- Ports without a close callback, which `osi_connect_tcp` and the listener close themselves, appear only as a closing handle in `TcpConnect`.
- Message priorities, timeouts and restarts of the gen-server: a server that dies takes its waiting callers with it, and making the directory of a target file is taken to succeed.
- What a worker of the fetcher does on the network; its outcome is any status, and any body of which any part is written out by then. Spawning, monitoring and entering a worker in the table are one step.
- Removal of target files: nothing in the proxy removes one. A worker that dies may or may not have run its exit code. What a file holds that someone else put in place is not modelled.
- What `SHA1Input` does after a store outside the block buffer: the model of the call ends there.
- Redirects and retries of the HTTP handler around the fetcher.
- File-system wrappers, timers, signals, process spawning, the TCP listener, path watching, the Scheme runtime and its libraries, start-up and build scripts.
