# Verified models of the chat server and the web server

The repository holds two small network servers in C with blocks: a line-based chat server (`chat/`) and an
HTTP/1.0 file server (`webserver/`). Both stand on the same home-made runtime: reference-counted objects, a
dictionary, a lock-free queue, dispatch queues and a poll thread. This project models that runtime and the
protocols built on it, and proves what they keep.

## What is modelled

| files | subject |
|---|---|
| `MichaelScott.dfy`, `MichaelScottProof.dfy`, `MichaelScottProgress.dfy` | the lock-free FIFO queue: any number of threads, one shared access per step |
| `Dispatching.dfy`, `DispatchingProof.dfy`, `Shutdown.dfy` | the dispatch queue: semaphore, workers, shutdown by exit blocks |
| `WakeUp.dfy` | the wake-up pipe of the poll thread |
| `Lifecycle.dfy`, `LifecycleProof.dfy`, `Continuation.dfy` | web connections, one-shot poll registrations and descriptor reuse |
| `Registrations.dfy` | who registers with the chat server's poll thread, what for, and when callbacks run |
| `PollSlots.dfy`, `PollTable.dfy`, `DescriptorTable.dfy` | the two poll tables, parallel arrays changed in place |
| `Shapes.dfy`, `Counting.dfy`, `Removal.dfy`, `Dictionary.dfy` | the reference-counted search tree with greater keys to the left |
| `KeyTree.dfy` | the same tree as keys alone: insertion, removal, the order of visits, and how many entries wait at once |
| `Stack.dfy`, `Iterator.dfy` | the stack and the iterator built on it |
| `Reading.dfy`, `Strings.dfy`, `Request.dfy` | reading a request and cutting it into slices in place |
| `Decimal.dfy`, `Response.dfy`, `HeaderRoundTrip.dfy` | the resumable response sender, and printer against parser |
| `LineBuffer.dfy`, `ChatClient.dfy`, `Listing.dfy`, `Chat.dfy` | chat lines, nicknames, private messages, broadcast, the list of names |
| `Overrun.dfy` | a run of the chat server in which the stack's written growth test fails |

The protocols (the first five rows) are transition systems over values: a run is a schedule, that is a
sequence of scheduling and environment decisions, and the theorems hold for every schedule. Each step is one
access to shared memory. The dispatch queue and the poll protocols use the sequence that the lock-free queue
is proved to refine. Everything the C code changes in place is a class whose methods change fields, arrays
and linked entries in place; each method is tied to a function of the old state, and lemmas say what that
function means.

In the chat server every client and listener callback runs on the poll thread itself (no dispatch queue is
passed when they register), so chat operations follow one another and are modelled as methods.

The environment enters as nondeterminism with the stated results only. `recv` returns any non-empty piece that
fits, or EAGAIN; `send` takes any part or refuses; `poll` reports any entries (POLLOUT only for those that ask
for it); the kernel gives out any descriptor that is not open. A peer that stalls or refuses finitely often is
expressed by a counter that each stall uses up. A buffer is an array of characters, a C string the characters up
to the first NUL.

## Where code and documentation or intention differ

- `chat/utils/stack.c:67` grows the stack one push too late: the test as written puts a third object behind an
  array of two. `Stacks.Stack.Push` models the intended test (grow when `uppermostObject + 1 == slots`) and
  follows what the written one would do beside it. The iterator and everything that uses it inherit the fault:
  the broadcasts of `Connect`, `Disconnect`, `HandleNick` and `HandleLine`, and `/list`. All of them say exactly
  when: with the written test every push lands inside the array if and only if `Peak` of the dictionary's tree is
  at most 2, that is, as long as never more than two entries wait at once. `Overrun.FiveClients` follows a run of
  the model: with clients named m, z, d and f everything broadcast stays inside, and the greeting of a fifth
  client, still under its default name, is the first that does not.
- The line buffer of `/list` (`chat/server/client.c:445-456`) has 255 bytes. `Chat.Server.HandleList` says that it
  holds if and only if every nickname has at most 251 characters; nothing is said about the output otherwise.
- Setting a header with the empty key sets the value of the dictionary's sentinel, which is never printed;
  `Responses.Response.SetHeaderValue` follows the code.
- `webserver/utils/str_helper.h` promises that `strtrim` trims both ends. The code looks at the terminator
  instead of the last character, so it trims the front only. The model follows the code, and
  `HeaderRoundTrip.TrimsFrontOnly` says for exactly which texts the two agree.
- The header round trip needs conditions on the headers; `HeaderRoundTrip.RoundTrip` is an if-and-only-if, so
  the conditions are exact.
- `ClientDoRead` drops bytes when a NUL follows a line: `LineBuffer.NextConserves` says exactly when a call
  loses nothing, and without NUL bytes nothing is ever lost.
- Blocks dispatched after `_DisptachQueueDealloc` has begun may never run.
  `DispatchingProof.ShutdownDrains` says that these are the only ones, and `DispatchingProof.QuietShutdown`
  that nothing is left when there are none.

## Model

| member | source | states |
|---|---|---|
| MichaelScottProof.RefinesFifo | chat/utils/queue.c:90-160 | under every interleaving of single shared accesses, the calls' effects (link of `tail->next`, swing of `head`, read of a NULL `next`) in the order they happen are a run of a sequential FIFO queue that ends with what the linked list holds |
| MichaelScottProof.CallsTakeEffectOnce | chat/utils/queue.c:90-160 | every finished call took effect once between its start and its end: an enqueue put its argument, a drain took what it returns, a NULL result changed nothing and saw the queue empty during the call |
| MichaelScottProof.FirstInFirstOut | chat/utils/queue.c:90-160 | elements drained so far, then those still held, are the elements enqueued, in order |
| MichaelScottProof.NeverFaults | chat/utils/queue.c:127-160 | no thread ever fails `assert(next->dequeued == false)` or follows a NULL or wild pointer |
| MichaelScottProof.HeadBehindTail | chat/utils/queue.c:105-155 | head reaches tail along `next`, so it never passes it, and tail is the last node or the one before |
| MichaelScottProof.RetriesBounded | chat/utils/queue.c:105-155 | lock-free progress: with k enqueues and m drains in effect no thread's loops have gone round again more than 2k + m times |
| MichaelScottProgress.AloneFinishes | chat/utils/queue.c:105-159 | from every state of every run, wherever the other threads stopped, a thread inside a call that alone takes steps is outside it within 16 of them |
| MichaelScottProgress.DrainAlone | chat/utils/queue.c:127-160 | a drain that runs alone returns the first element the queue holds and takes it out, or NULL if and only if the queue is empty |
| MichaelScottProgress.EnqueueAlone | chat/utils/queue.c:90-125 | an enqueue that runs alone returns with its element behind all others |
| MichaelScottProgress.AccessesBounded | chat/utils/queue.c:105-159 | lock-free progress in shared accesses: in any run with k enqueues and m drains in effect a thread has made at most 8 accesses for each call it started and 6 (2k + m) others |
| DispatchingProof.DrainsFind | chat/utils/dispatchqueue.c:116-125 | a worker that passed `sem_wait` finds a block; no drain returns NULL in any run |
| DispatchingProof.EachBlockRunsOnce | chat/utils/dispatchqueue.c:101-125 | blocks are taken in dispatch order, and each one taken is being run by one worker or finished once, or made one worker exit |
| DispatchingProof.SerialQueueKeepsOrder | chat/utils/dispatchqueue.c:78-125 | with one thread the finished blocks are a prefix of the dispatched ones, in order |
| DispatchingProof.ShutdownDrains | chat/utils/dispatchqueue.c:127-149 | when all joins have returned each thread took exactly one exit block, every block dispatched before dealloc began is finished, and only later ones may be left |
| DispatchingProof.QuietShutdown | chat/utils/dispatchqueue.c:127-149 | with no later dispatch the queue is empty, the semaphore zero, nobody is about to post, and a serial queue finished everything in order |
| DispatchingProof.JoinNeverHangs | chat/utils/dispatchqueue.c:140-142 | while a joined thread has not exited, some step other than the join changes the state: a caller posts, or a worker passes `sem_wait`, drains or finishes its block |
| Shutdown.ShutdownEnds | chat/utils/dispatchqueue.c:101-149 | once dealloc has begun, a run without further dispatches takes at most `Work` steps (4 for each caller about to post, 3 for each post, up to 2 for each worker, 6n + 2 for n threads), and until dealloc has ended some step is possible; so every such run joins all threads |
| Shutdown.ShutdownReached | chat/utils/dispatchqueue.c:127-149 | from every state after dealloc began there is such a run to its end |
| Shutdown.EverythingCanFinish | chat/utils/dispatchqueue.c:101-125 | before dealloc, from every state the callers about to post and the workers alone, within `Work` steps, finish every block dispatched so far as often as it was dispatched |
| WakeUp.NoLostWakeUp | chat/net/poll.c:179-251 | at `poll()` with an update queued, a byte is in the pipe or that update's producer has not written yet, in spite of the 255-byte read and failed writes; so `poll()` sleeps only in the latter case |
| WakeUp.AppliedInOrder | chat/net/poll.c:227-251 | updates are applied once each in the order they were enqueued |
| WakeUp.EverythingCanApply | chat/net/poll.c:179-251 | from every state the poll thread alone comes to apply all updates enqueued so far |
| LifecycleProof.AtMostOneContinuation | webserver/http/httpconnection.c:130-311 | over every run with reused descriptors there is at most one way to run more code of a connection: running or dispatched block, queued registration, armed entry, or block about to be dispatched |
| Continuation.ExactlyOneContinuation | webserver/http/httpconnection.c:130-311 | as long as no peer hangs up and no recv fails or ends, every open connection has exactly one way to go on: none is dropped, whatever the schedule |
| Continuation.WaitingCanFire | webserver/net/poll.c:193-232 | every registration that was made has fired, or the poll thread alone can make it fire |
| Continuation.SentIsProcessed | webserver/http/httpconnection.c:184-311 | nothing is sent on a connection whose request was not processed |
| LifecycleProof.RegistrationsFireOnce | webserver/net/poll.c:194-232 | each one-shot registration is exactly one of queued, armed or fired, and fires once: none is lost, overwritten, cancelled or repeated |
| LifecycleProof.UpdatesHitFiredEntries | webserver/net/poll.c:204-211 | an unregister that finds an entry removes one that fired, so it never cancels a re-registration, and a register never finds an entry |
| LifecycleProof.FiresForTheOwner | webserver/net/poll.c:198-231 | an armed entry belongs to the connection that has its descriptor open |
| LifecycleProof.ProcessedOnce | webserver/http/httpconnection.c:184-201 | request processing starts at most once per connection |
| Registrations.NeverFaults | chat/net/poll.c:252-328 | over every run of connects, lines, complete sends and disconnects no queued update looks up a registration that is not in the table (so `UINT32_MAX` is never an index) or registers one twice, and no callback is called for a client that has disconnected |
| Registrations.AsksToWrite | chat/server/client.c:169-276 | once the queue is applied the table holds exactly the listeners, the clients in the registry and one about to be removed, and asks for POLLOUT exactly for clients with unsent output: no output is forgotten |
| Registrations.OutputAtPollout | chat/server/client.c:121-131 | a callback for POLLOUT comes only to a client in the registry with unsent output, if `poll()` reports POLLOUT only to those who ask; so `ClientDoWrite` never sends nothing and takes that for a lost client |
| Registrations.RoundsMayRun | chat/net/poll.c:191-221 | whatever `poll()` reports, the updates queued then meet what a round of the poll thread requires |
| Registrations.ReadyIsCalled | chat/net/poll.c:203-220 | in every run the scan calls back for each ready entry it comes to: the count of entries to handle never ends it before |
| Registrations.ScanEnds | chat/net/poll.c:203-220 | and it ends only when no ready entry is left |
| PollTable.Table.Put | webserver/net/poll.c:249-290 | adding or overwriting: the table becomes `ApplyTo` of the old one, the overwritten block and dispatch queue are released, arrays stay aligned through doubling |
| PollTable.Table.Take | webserver/net/poll.c:291-316 | removal by swap with the last slot: same specification, the block is released (the dispatch queue is not), the freed slot is zero again |
| PollTable.Table.ApplyUpdates | webserver/net/poll.c:238-320 | the drain loop applies all updates first to last and releases exactly the blocks `LetGoAll` and the queues `LetGoQueues` list |
| PollTable.Table.Poll | webserver/net/poll.c:198-198 | `poll()` sets every revents and returns the number of ready entries |
| PollTable.Table.Scan | webserver/net/poll.c:207-232 | in spite of the `socksToHandle > 0` exit the scan acts on every ready entry, and unregisters before it notifies |
| PollTable.Table.Round | webserver/net/poll.c:193-232 | `poll()`, updates and scan together act on all ready entries of the updated table |
| PollTable.ApplyRefinesFold | webserver/net/poll.c:247-316 | the table as a map from descriptors is the old map with the updates folded in FIFO order, and descriptors stay distinct |
| PollTable.BlocksConserved | webserver/net/poll.c:249-316 | every copied block that came in is held by one slot or was released once |
| PollTable.QueuesAccounted | webserver/net/poll.c:249-316 | every dispatch-queue reference that came in is held by a slot, was released when its entry was overwritten, or was forgotten when its entry was removed |
| PollTable.ReadyNeverGrows | webserver/net/poll.c:198-231 | applying updates leaves at most as many ready entries as `poll()` reported |
| PollTable.RoundNotifies | webserver/net/poll.c:198-231 | an entry is notified if and only if `poll()` reported it ready and no update removed or replaced it meanwhile |
| PollTable.ScanUnregisters | webserver/net/poll.c:209-219 | the scan unregisters precisely the ready entries that do not repeat |
| PollTable.UnregistersFirst | webserver/net/poll.c:211-231 | each of them directly before it is notified |
| PollTable.RoundUnregisters | webserver/net/poll.c:198-231 | a round unregisters precisely the entries that do not repeat, were reported ready and that no update touched meanwhile, each directly before its notification |
| PollSlots.ReadyPrefix | webserver/net/poll.c:208-210 | the ready slots seen so far are the first of all ready slots, so once as many were handled as were counted none is left |
| PollTable.ScanOnce | webserver/net/poll.c:207-231 | no action of a scan is done twice |
| DescriptorTable.Table.DoRegister | chat/net/poll.c:264-290 | appends the registration with revents 0, growing both arrays when full |
| DescriptorTable.Table.DoChangeEvents | chat/net/poll.c:292-304 | changes the events of one registration's entry and nothing else |
| DescriptorTable.Table.DoRemove | chat/net/poll.c:306-328 | removes one registration's entry by swap with the last slot, whose old place is cleared, and releases its block |
| DescriptorTable.Table.ApplyUpdates | chat/net/poll.c:237-250 | the drain loop runs the queued blocks first to last and releases exactly the blocks `LetGoAll` lists |
| DescriptorTable.BlocksConserved | chat/net/poll.c:264-328 | every block copied on registering is held by one slot or was released once |
| DescriptorTable.Table.Scan | chat/net/poll.c:203-221 | notifies every ready entry in spite of the early exit |
| DescriptorTable.Table.Round | chat/net/poll.c:191-221 | one round of the poll thread acts on all ready entries of the updated table |
| DescriptorTable.ApplyRefinesEffects | chat/net/poll.c:237-328 | each registration's entry is what the updates in queue order make of it, wherever its slot moves |
| DescriptorTable.RoundNotifies | chat/net/poll.c:195-220 | a registration is notified if and only if `poll()` reported it ready and it was not removed meanwhile |
| Dictionaries.Dictionary.Get | chat/utils/dictionary.c:84-106 | returns the binding of the key, NULL if there is none |
| Dictionaries.Dictionary.Set | chat/utils/dictionary.c:108-145 | binds the key and changes no other binding; order and counts are kept; a new key is a leaf where the search for it ended (`Planted`), and no other key moves |
| Dictionaries.Dictionary.Remove | chat/utils/dictionary.c:147-232 | removes exactly the key's binding; the removed entry is deallocated once, all others never, and every linked entry keeps retain count 1; the keys' tree becomes `Uprooted` |
| Dictionaries.Unlink | chat/utils/dictionary.c:160-206 | the four child cases: which link of the parent and which left link change, and that one entry is freed |
| Dictionaries.MoveRightUp | chat/utils/dictionary.c:164-183 | two children: the right subtree moves up and the left one hangs below its left-most entry |
| Dictionaries.Dictionary.Dealloc | chat/utils/dictionary.c:234-280 | releasing the head deallocates every entry exactly once |
| Counting.Release | chat/utils/object.c:78-98 | the release cascade frees each unshared entry once and only decrements shared ones; the counter and magic assertions hold |
| Counting.Retain | chat/utils/object.c:59-76 | adds one reference; the assertion holds |
| Removal.PruneGood | chat/utils/dictionary.c:155-206 | the tree after removal is in search order and holds all entries but the removed one |
| Removal.PruneLinks | chat/utils/dictionary.c:155-206 | removal changes only the parent's link and, with two children, the left link of the left-most entry of the right subtree |
| Removal.GrowGood | chat/utils/dictionary.c:120-142 | the tree with a new leaf is in search order and holds the old entries and the new one |
| KeyTrees.GrewIsPlanted | chat/utils/dictionary.c:120-142 | the keys of the tree with a new entry are what insertion by search makes of the keys before |
| KeyTrees.WithoutIsUprooted | chat/utils/dictionary.c:155-206 | the keys of the tree after a removal: the right subtree moves up and the left one hangs below its left-most key |
| KeyTrees.PlantedAndUprooted | chat/utils/dictionary.c:108-232 | removing a key that was just inserted gives the same tree again |
| Shapes.SearchFinds | chat/utils/dictionary.c:89-104 | the descent by `strcmp` reaches the entry of a key that is present |
| Shapes.KeysDiffer | chat/utils/dictionary.c:84-145 | no key occurs in two entries |
| Shapes.CompareAt | chat/utils/dictionary.c:90-92 | `strcmp`: the first difference decides, or the end of the shorter string |
| Stacks.Stack.Push | chat/utils/stack.c:64-74 | puts the object on top, with the intended growth test; the written test (line 67) would have stayed inside the array so far if and only if never more than two objects were held |
| Stacks.Stack.Pop | chat/utils/stack.c:76-82 | takes the top object, NULL when empty |
| Iterators.DictionaryIterator.constructor | chat/utils/dictionary.c:282-315 | a new iterator will visit all entries but the sentinel, right before left; with the written stack no push will miss the array if and only if `Peak` of the tree is at most 2 |
| Iterators.DictionaryIterator.Next | chat/utils/dictionary.c:333-346 | moves to the next entry of that sequence, and returns whether there is one; whether some push of the written stack misses the array stays as it was |
| Iterators.VisitAll | chat/utils/dictionary.c:282-346 | the loop over an iterator passes all keys but the sentinel's in the order of the key tree; with the written stack all pushes land inside the array if and only if `Peak` of the tree is at most 2 |
| Iterators.PreorderComplete | chat/utils/dictionary.c:282-346 | the sequence visited holds exactly the tree's entries |
| Iterators.PreorderOnce | chat/utils/dictionary.c:282-346 | no entry is visited twice |
| Iterators.PreorderKeys | chat/utils/dictionary.c:282-346 | the keys visited are those of the key tree, in its order |
| Reading.Connection.ReadRequest | webserver/http/httpconnection.c:130-201 | the growth loop keeps a zero terminator and `bufferFilled < bufferLength`, the buffer is what was received, and the request is dispatched if and only if the text has a blank line |
| Reading.BufferIsStream | webserver/http/httpconnection.c:163-184 | of a stream without NUL the parser sees everything received |
| Reading.ReadWhole | webserver/http/httpconnection.c:130-201 | if the first blank line ends the stream, every split into pieces and EAGAINs hands on the whole stream |
| Reading.CanParseIs | webserver/http/httprequest.c:69-79 | a request can be parsed if and only if CR LF CR LF or LF LF stands somewhere in the string |
| Strings.StrSep | webserver/utils/str_helper.c:28-36 | `strsep` in place: the one byte it overwrites and the rest it leaves |
| Strings.StrSepExt | webserver/utils/str_helper.c:28-36 | yields the first non-empty token and what follows, and touches no byte outside the string it cuts |
| Strings.CutSplits | webserver/utils/str_helper.c:28-36 | a cut leaves the token before the delimiter and the rest after it, ending where the whole ended |
| Requests.StrTrim | webserver/utils/str_helper.c:38-46 | drops leading white space only |
| Requests.Request.ParseBuffer | webserver/http/httprequest.c:140-211 | accepts what the grammar function `Parse` accepts, and after all cuts every stored slice still says what `Parse` says |
| Requests.Request.ParseHeadersAt | webserver/http/httprequest.c:184-195 | the loop over header lines stores slices that keep their content while later lines are cut |
| Requests.Request.ParseActionAt | webserver/http/httprequest.c:154-182 | method, path and version of the action line, from slices of the line |
| HeaderRoundTrip.RoundTrip | webserver/http/httpresponse.c:228-278 | printed headers parse back to the same headers if and only if each key is non-empty without colon, CR, LF and each value is without CR, LF and leading white space |
| HeaderRoundTrip.RequestRoundTrip | webserver/http/httprequest.c:140-211 | a whole request text parses back to its path and headers |
| HeaderRoundTrip.ActionLineReads | webserver/http/httprequest.c:154-182 | three words: GET if the first starts so and else unknown, the path, and HTTP/1.0, HTTP/1.1 or unknown by what the last starts with |
| HeaderRoundTrip.ShortActionLine | webserver/http/httprequest.c:159-172 | with fewer than three words there is no request |
| HeaderRoundTrip.ParsePrinted | webserver/http/httprequest.c:140-211 | a printed request in a buffer, cut up by the parser in place, leaves slices that say its path and exactly its headers, and with unique keys rebuilds the header map |
| HeaderRoundTrip.UniqueKeysBind | webserver/http/httprequest.c:184-211 | with unique keys the header map holds exactly the headers, in whatever order they came |
| HeaderRoundTrip.TrimsFrontOnly | webserver/utils/str_helper.c:38-46 | the code trims both ends exactly for texts that are all white space or end in none |
| Responses.Response.Send | webserver/http/httpresponse.c:166-186 | bytes out plus bytes remaining never change in sum; true exactly when complete with nothing remaining; false only after progress or a refusal |
| Responses.Response.SendStatusLine | webserver/http/httpresponse.c:188-211 | the status-line stage keeps that law across partial sends |
| Responses.Response.SendHeaders | webserver/http/httpresponse.c:213-293 | so does the headers stage, over key, delimiter, value, line end and the blank line |
| Responses.Response.SendBody | webserver/http/httpresponse.c:295-329 | so does the body stage, for a string, a file, or none |
| Responses.Response.SendString | webserver/http/httpresponse.c:336-357 | puts out the rest of a string from where the last call stopped, or records how far it came |
| Responses.Response.SendFD | webserver/http/httpconnection.c:343-375 | advances the file offset by what was sent; done when nothing was left |
| Responses.Response.SetHeaderValue | webserver/http/httpresponse.c:151-154 | sets one header and changes no other; the headers stay in the order of the dictionary's iterator, a new key where insertion puts it |
| Responses.Deliver | webserver/http/httpconnection.c:296-311 | however the socket splits or refuses the writes, the peer receives exactly the image of the response: status line, header lines, blank line, body (section 6 of RFC 1945) |
| Responses.SendTimes | webserver/http/httpresponse.c:166-186 | after any number of calls of `HTTPResponseSend` what is out is a prefix of that image, all of it once a call returned true, and a call that did not complete was refused or put something out |
| HeaderRoundTrip.StatusLineReads | webserver/http/httpresponse.c:201-201 | the status line is HTTP/1.0, a space, three digits that say the code, a space, its name and CR LF |
| HeaderRoundTrip.ImageReads | webserver/http/httpresponse.c:166-329 | a client reads that image back: this status line, header lines that parse to the headers, the blank line, and the rest is the string or the content of the file |
| LineBuffer.Input.DoRead | chat/server/client.c:188-246 | hands on at most one line per call, and at once if what was kept and received holds a complete one: the first; without NUL from the peer any newline completes a line, and the handed lines with their newlines, then the kept bytes, are exactly what was received; bytes past the filled part are zero |
| LineBuffer.NextConserves | chat/server/client.c:217-244 | handed lines hold no newline and no NUL, and a call drops nothing if and only if no NUL follows the first newline |
| LineBuffer.NextHandsOn | chat/server/client.c:221-230 | a line is handed on if and only if there is a newline with no NUL before it, and it is what precedes the first one |
| LineBuffer.NextAt | chat/server/client.c:221-244 | what follows that newline is kept, unless it starts with a NUL |
| LineBuffer.StillAccounted | chat/server/client.c:188-246 | one more piece of a stream without NUL keeps the account of lines and kept bytes |
| LineBuffer.Input.Shift | chat/server/client.c:232-243 | moves the bytes behind the line to the front and clears the rest, or discards the buffer |
| ChatClients.StrTrim | chat/utils/str_helper.c:38-50 | cuts the string down to `Nick` of it, in place |
| ChatClients.NickIsFirstWord | chat/utils/str_helper.c:38-50 | that is the first word: what precedes it is white space, it ends at the end or at white space, and it is empty only if all is white space |
| ChatClients.NickIsNick | chat/server/client.c:322-328 | a normalized nickname is empty or non-empty without white space, and nicknames are left as they are |
| ChatClients.Client.WriteLine | chat/server/client.c:357-374 | appends the line and a newline to the output buffer, growing it when needed |
| ChatClients.Client.WriteAll | chat/server/client.c:248-267 | a complete send hands over the whole buffer and discards it; with nothing to send the client counts as gone |
| Chat.Server.SetNickname | chat/server/client.c:315-355 | succeeds if and only if the normalized name is not empty and is the client's own or free; then the old key gives way to the new one; the registry stays a bijection between clients and nicknames |
| Chat.Server.Connect | chat/server/client.c:102-162 | a new client gets the first free default nickname, within n + 1 attempts for n connected clients, and everybody gets the greeting; with the stack as written that stays inside its array if and only if `Peak` of the new tree is at most 2 |
| Chat.Server.ChooseNick | chat/server/client.c:133-151 | the default-nickname loop: the first number whose name is free |
| Chat.Occupied | chat/server/client.c:133-145 | taken default names are distinct keys, so there are no more of them than keys |
| Chat.RegistrySize | chat/server/client.c:336-354 | with n clients connected the registry has n keys and the sentinel's |
| Chat.Server.Disconnect | chat/server/client.c:169-186 | takes exactly this client out of the registry and tells all others; inside the written stack's array if and only if `Peak` of the new tree is at most 2 |
| Chat.Server.HandleNick | chat/server/client.c:376-398 | renames and tells everybody, or leaves the registry alone and tells the client alone why; an announcement stays inside the written stack's array if and only if `Peak` of the new tree is at most 2 |
| Chat.Server.HandleMsg | chat/server/client.c:400-436 | the named client gets the line, the sender a copy, nobody else anything; usage and unknown-recipient replies go to the sender alone |
| Chat.MsgReachesNamed | chat/server/client.c:407-423 | for a nickname and a non-empty text, the argument `nick text` is understood as this nickname and this text |
| Chat.MsgIncomplete | chat/server/client.c:400-418 | no argument, a name alone, or a name and a blank gets the usage reply |
| Chat.CommandLine | chat/server/client.c:285-300 | a slash and a word without blanks is that command without arguments; with a blank behind it, all that follows are its arguments |
| Chat.MsgLine | chat/server/client.c:285-300 | the line `/msg args` is understood as the command with these arguments |
| Chat.SaidLine | chat/server/client.c:280-312 | a line that is not empty and starts otherwise is said to everybody |
| Chat.Server.HandleList | chat/server/client.c:438-467 | the client alone gets all nicknames in the order of the registry's tree, packed into lines, when the line buffer can hold each of them, and whether it can |
| Listings.LinesHoldAll | chat/server/client.c:446-464 | those lines together are all names in order, each once; none is empty or longer than 254 characters |
| Listings.LinesAreFull | chat/server/client.c:452-455 | no line ends while the next name would still have fitted |
| Chat.Server.HandleLine | chat/server/client.c:278-313 | for each kind of line: what becomes of the registry and its tree, who is told what, and when the iteration it causes, if any, stays inside the written stack's array |
| Chat.Server.DoRead | chat/server/client.c:188-246 | what arrives on a client's socket: a complete line, the first in what was kept and received, is handled as that line, a client whose peer is gone leaves the registry and all others are told, with the same condition for the written stack |
| Chat.Server.SendChannelMessage | chat/server/server.c:143-155 | the message and a newline are appended exactly once to every registered client's output buffer; with the stack as written all pushes stay inside its array if and only if `Peak` of the registry's tree is at most 2 |
| Overrun.FiveClients | chat/server/client.c:153-160 | clients m, z, d and f connect and rename, and everything broadcast stays inside the written stack's array, a message too; the greeting of a fifth client does not, nor do the news of its name b and a message then |
| Chat.Recipients | chat/server/server.c:143-155 | the clients the iterator passes are all registered ones, each once |
| Chat.KeysAndNames | chat/server/client.c:169-172 | no client's nickname is the sentinel's key, so the sentinel is never removed |
| Decimal.RenderInjective | chat/server/client.c:138-138 | different numbers render differently |
| Decimal.RenderValue | chat/server/client.c:138-138 | a rendering consists of digits, has the value of the number, and no leading zeros |

## Left out

- Freeing of queue nodes that other threads may still hold, and reuse of their addresses: node identities are never reused.
- Allocation failure, and wrap-around of 32-bit sizes and counters.
- Hard send errors: `HTTPConnectionSendFD` returns -1 as a bool. Files that change size while they are sent.
- Partial sends of the chat output buffer (`chat/server/client.c:271-274`): the filled count is not reduced there, so nothing is conserved.
- DescriptorTable.Table.DoChangeEvents: like removal it needs the registration in the table, because the source then indexes with `UINT32_MAX`; `Registrations.NeverFaults` proves that its callers meet this in every run.
- What `Registrations` takes from the `Chat` methods is the updates they enqueue, in any order the code allows; that writes go to clients in the registry is `Chat.Recipients`.
- Lifecycle of connections: entries that repeat (the wake-up pipe, the listener) are not in the model's table, as they never fire one-shot; their descriptors are never given to a connection.
- The locks of dictionary iterators, which their users never release.
- The exact arithmetic of addresses after `strtrim`, which keeps the advanced address and later frees that.
- Path resolution, `stat`, the document root and the table of status names.
- Chat.Server.HandleLine: what `/list` writes when a nickname has no room in its line buffer.
- Listener and server set-up, address formatting, `echo/`, the chat client with its GUI, and all mains.
- The web server's copies of queue, dispatch queue, stack, object and dictionary, which equal or are weaker than the chat server's.
