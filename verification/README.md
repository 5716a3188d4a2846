# Verified model of the CHIME/FRB L1 server's coordination code

A Dafny model of the parts of the L1 server and its tools in which correctness depends on order,
arithmetic or parsing, with proofs of what those parts are relied on for. `dafny verify dfyconfig.toml`
checks everything.

## What is modelled

**Asynchronous `write_chunks`** (`l1-rpc.cpp`, `rpc_client.py`). `WriteServer` is the server as a state
machine whose events are the atomic steps of the server thread (drain one completion, find the queue
empty, accept a request, submit one chunk, send the list) and of the I/O threads (a status change, the
two locked halves of a finished write). `L1RpcServer` has the classes the machine abstracts: the locked
queue, the status map, `status_changed`, the draining loop with I/O threads pushing meanwhile, and the
`write_chunks` handler; their methods are shown to leave the object where the machine's steps lead.
`TokenStreams` and `Matching` say what one client sees of one server under one token; `ServerRuns` what
holds over every run of one server, and `WrittenChunks` that the list a client receives names exactly
the chunks the ring buffers held when its request was accepted. `ClientBuffer`, `ClientWaits` and `RpcClient` are the client: a
buffer of replies by token, read and waited for in loops that terminate on a finite script of polls
(`PollScript`). A wait reads until a poll that does not block finds nothing and, if that is the first,
polls once more; it times out if this finds nothing either. Waits are numbered, so that a time-out is
always one of a wait that the call made: two empty polls in a row may well belong to two waits that
both received something. `WriteSystem` puts one client, any number of servers and any number
of other clients together; `WriteGuarantees` and `WriteCall` prove what `write_chunks(waitAll=True)`
returns in every interleaving, `WriteComplete` that a server that is finished with a request has sent
all of it, and `StatusReplies` what a later status request is told. Nothing in the client checks that
the list comes first, that completions are distinct, or that a message comes from the right server: all
three are global invariants here.

**Startup** (`ch-frb-l1.cpp`, `mask_stats.cpp`). `MaskCounters` finds the mask counters of an RFI chain
and enters them into the stream's map. `Startup` interleaves the main thread, which spawns, polls under
a mutex and then builds RPC servers without it, with the dedispersion threads, which enter their
counters one by one and register with three writes under the mutex; any thread may throw at any time,
which ends the process. `StartupEnds` shows that startup can always be completed. `L1Server` has the
object whose vectors the machine's slots are.

**Sizes** (`ch-frb-l1.cpp`, `simulate-l0.cpp`, `ch_frb_l1.hpp`). `L0Params` checks an L0 configuration,
derives its sizes and says what each thread sends; `MemoryPools` sizes the L1 ring buffers, the slabs
and the CPUs' pools; `StreamBeams` selects the beams each stream saves. The source's assertions on
derived values are assertions or preconditions here, so they are proved never to fire.

**Command line** (`cxxopts.hpp`). `ArgParser` is the parser, which fills its results and compacts the
argument vector in place in one loop with look-ahead. `CommandLine` gives the vector's meaning as
recursive functions, and the parser is proved to compute it. `CommandLineRoles` and `CommandLineMeaning`
say without recursion over the vector what it means: the only split in which each entry has the role
its place calls for and each word goes to the first option that can take it. `DefaultsFirst` is about
defaults and words after `--`, `CommandLineErrors` about what is complained of first. `PrintedArguments`
and `DeclaredOptions` prove that printed settings and words are read back, and that two names of an
option are one. `IntegerParser` is the bounded integer parser. `Lexis` and `NumeralSyntax` say character
by character (`Ascii`) what the patterns of options, flags and numerals match.

**Text** (`civetweb/CivetServer.cpp`, `l1-rpc.cpp`, `file_utils.cpp`). `UrlCodec` encodes and decodes
(section 2.1 of RFC 3986; section 8.2.1 of RFC 1866 for forms), and `UrlSyntax` says byte by byte which
bytes are escaped and how. `QueryParams` looks fields up in forms; `ParamSearch` says what a lookup finds
in any text, and that it ignores case. `Replace` is `replaceAll` and `AcqPath` the directory an acquisition's metadata goes to. `Numerals`, `Modular` and
`PowersOfTwo` hold arithmetic that several of these share, `Sequences` what they need of sequences.

## Assumptions

- A connection delivers messages in the order they were sent, and sends succeed.
- The I/O pool reports each write as finished at most once; a client that is to see all of its
  completions needs exactly once. Reports may come at any time, also before the list is sent and for a
  write that was refused.
- The pool reports no status change of a write after it has reported it as finished.
- A request handler that throws does so before it has submitted a chunk, and the request gets no answer.
- Client timeouts are polls that find nothing; a timeout of zero is one of these. Tokens are natural
  numbers in the client; the server reads 32 bits, and a request with a larger token gets no answer.
- A packet's size is a positive header plus an equal amount per coarse channel; the number of coarse
  channels is a power of two and at least 32; a memory slab and an assembled chunk are not empty.
- `int` has 32 bits, so 8- and 16-bit operands of the integer parser multiply exactly. Where it negates
  the smallest 32- or 64-bit value, which C++ leaves undefined, the model takes two's complement.
- Characters are bytes of the C locale; a C string holds no zero byte. Texts to decode are shorter than
  two to the 31. Whether an acquisition's directories pass their checks is a parameter.
- Sizes derived by the C++ code stay within its integer types.

## Where the code differs from what one would expect

- `getParam` finds a field nobody sent when the name itself reads like whole fields followed by a key
  (`a=1&b`). `QueryParams.LookupExact` says exactly for which names it is right on every form.
- For 32- and 64-bit types the overflow check compares against a product that may itself have wrapped:
  `4294967300` is read as 4. `IntegerParser.WideExact` says exactly when.
- `replaceAll` with an empty replacement deletes again and again, so it can delete text that was not
  there before. `Replace.ReplaceExact` says exactly when it equals one simultaneous pass.
- The parser gives an option its default before it reads what follows `--`, so a word after `--` skips
  a positional option that has a default and takes one value. `DefaultsFirst.DefaultsFirstExample` is a
  word that is kept for this reason; `DefaultsFirst.DefaultsMatter` says exactly when a word fares as it
  would without defaults.
- `urlEncode` leaves a zero byte as it is, since `strchr` finds the terminator of its list.
  `UrlCodec.ZeroExample` is the single zero byte; `UrlCodec.ZeroKept` says that the encoding has a zero
  byte exactly if the source has one.
- When the long name of an option is taken, `add_option` has already added the short one.
  `DeclaredOptions.HalfAddedExample` is `v,verbose` where `verbose` is taken;
  `DeclaredOptions.Options.AddOption` says that a call that fails leaves the names as they were exactly
  if the short name is empty or was taken already.

## Model

| member | source | states |
|---|---|---|
| WriteServer.StepValid | l1-rpc.cpp:346-401 | every event of every thread keeps the log, the queue and the status table consistent: each reported request is logged once, with its own reply |
| WriteServer.RequestsGrow | l1-rpc.cpp:874-909 | submitted requests never change, and a reported outcome is final |
| WriteServer.QueueStep | l1-rpc.cpp:149-169 | each event keeps the queue equal to the part of the log not drained yet, and the completion packets equal to what the drained part calls for |
| WriteServer.StatusStep | l1-rpc.cpp:204-228 | each event keeps: a request that is the only user of its file name and has reported finds its own state and error in the table |
| WriteServer.LogCompleteStep | l1-rpc.cpp:214-228 | a request whose report is complete is in the log, after any event |
| WriteServer.ReplyDescribes | l1-rpc.cpp:219-221 | a reply holds the chunk's beam, the FPGA count at which it begins, and the number of counts in 64 bits: the difference of end and beginning |
| WriteServer.KeyDescribes | l1-rpc.cpp:899-908 | a reply that agrees with a request in beam, fpga0, fpgaN and filename gives the values of the request's own chunk and file |
| WriteServer.ThreadNeverWaits | l1-rpc.cpp:346-401 | the server's thread always has a step: it never waits for an I/O thread, and takes any request of any client, or none, once it has looked at the queue |
| WriteServer.WritersNeverWait | l1-rpc.cpp:204-229 | whatever the server's thread does, I/O threads may report on an active request with any state and finish it with any outcome, and then reach the queue |
| ServerRuns.QueueRefinesLog | l1-rpc.cpp:149-169 | at every moment of every run, drained entries followed by the queue are the finished events in lock order, none twice, and the completions sent are the drained ones that have a client |
| ServerRuns.LogIsFinishes | l1-rpc.cpp:204-228 | the log holds the finished requests in the order the queue's lock was taken |
| ServerRuns.StatusIsTerminal | l1-rpc.cpp:204-264 | once a completion is in the queue, a lookup of its file yields that request's terminal state and the reply's error, then and ever after, while no other request uses the name |
| ServerRuns.OutcomesStay | l1-rpc.cpp:204-228 | no later step of a run changes a reported outcome or a request |
| ServerRuns.LoggedReports | l1-rpc.cpp:214-228 | each entry of the log has the beam, fpga0 and fpgaN of its request's chunk, its file name, and the success and error its I/O thread reported |
| StatusReplies.StatusAfterCompletion | l1-rpc.cpp:918-935 | once a completion has been received anywhere in the system, any later status request for its file is answered with the state its write ended in and the completion's error, while no other request has used the name |
| L1RpcServer.BackendQueue.EnqueueWriteReply | l1-rpc.cpp:149-156 | a null entry is refused and changes nothing; any other goes to the end of the queue |
| L1RpcServer.BackendQueue.DequeueWriteReply | l1-rpc.cpp:158-169 | the oldest entry is returned and removed; null exactly when the queue is empty |
| L1RpcServer.ChunkStatusMap.Set | l1-rpc.cpp:234-243 | the file's status and error replace what was there, other files keep theirs |
| L1RpcServer.ChunkStatusMap.Get | l1-rpc.cpp:245-264 | the stored status and error, or UNKNOWN and an empty error if the file is not in the table |
| L1RpcServer.Server.StatusChanged | l1-rpc.cpp:204-229 | every report updates the table; only a finished write reaches the queue, with its chunk's beam, fpga0 and fpgaN, its file, success and error; the object is then where the machine's report steps lead |
| L1RpcServer.Server.CheckBackendQueue | l1-rpc.cpp:1047-1081 | with I/O threads pushing while it runs, the loop empties the queue and sends one packet, in queue order, for each entry that has a client; if the pushes are the machine's enqueue events, the object is then where these, the dequeue events between them and the queue-empty event lead |
| L1RpcServer.DrainingAnswers | l1-rpc.cpp:1047-1081 | the machine's dequeue events, with enqueue events in between, send the packets of the loop, leave the queue empty, and change nothing else |
| L1RpcServer.OutgoingIsPackets | l1-rpc.cpp:1047-1081 | the packets of the draining loop are those the state machine's drained log calls for |
| L1RpcServer.Server.GetChunks | l1-rpc.cpp:1103-1114 | the chunks of all beams' snapshots, beam by beam: each snapshot is found, whole, from where the one before it ends, the first at the front and the last up to the end |
| L1RpcServer.Server.HandleWriteChunks | l1-rpc.cpp:874-916 | one request is submitted per chunk, in order, and one packet is sent: the list, whose entries give each chunk's beam, fpga0 and fpgaN, its file, and whether the pool took it; the object is then where the machine's submissions and list step lead |
| L1RpcServer.ListIs | l1-rpc.cpp:874-916 | one submission step per chunk and the list step of the machine add exactly these requests and this packet |
| TokenStreams.QuietStep | l1-rpc.cpp:346-401 | for a token the server has not accepted, no event makes a request or sends anything |
| TokenStreams.AcceptStep | l1-rpc.cpp:437-445 | accepting `write_chunks` puts the token in hand with nothing sent, and what is asked for under it is the snapshots of all beams, one after another; a status lookup is answered at once from the table, and any other answered call with its own answer; other requests and tokens beyond 32 bits get no answer |
| TokenStreams.InHandStep | l1-rpc.cpp:874-916 | while chunks are submitted, whatever the I/O threads finish, nothing is sent for the token before its list; submitted and remaining chunks stay those asked for, and the list names exactly these, in order |
| TokenStreams.ListedStep | l1-rpc.cpp:1047-1081 | after the list, the token's stream is the list followed by its completions in queue order, and no request is added: the chunks asked for stay those that were submitted |
| TokenStreams.DeliveredOwner | l1-rpc.cpp:214-228 | a completion sent under a token belongs to a request made under that token |
| WrittenChunks.RunAsked | l1-rpc.cpp:866-916 | at every moment of every run, while a `write_chunks` token is handled or has had its list, the chunks submitted and still to submit under it are those that all beams' ring buffers held at the step that accepted it |
| WrittenChunks.ListNamesSnapshot | l1-rpc.cpp:866-916 | in every run the list received under a `write_chunks` token names, entry by entry, beam after beam, exactly the chunks that the ring buffers held when its server accepted the request |
| WrittenChunks.CompletionNamesSnapshot | l1-rpc.cpp:1103-1114 | and every completion received under it is about one of these chunks, under the file name its list entry gave |
| Matching.CompletionsMatchList | l1-rpc.cpp:899-908 | completions sent for a token map injectively to list entries of the same beam, fpga0, fpgaN and filename, and are exactly these when there are as many |
| Matching.CompletionIdsDistinct | l1-rpc.cpp:149-169 | no request completes twice in a token's stream |
| ClientBuffer.PassSpec | rpc_client.py:638-652 | one pass takes, for each token, as many of its oldest messages as it is listed, while there are any, keeps the last taken, lists the token again as often as none was left, and leaves all else as it was |
| ClientBuffer.DeliverAllAt | rpc_client.py:578-586 | buffering appends to each token's list the messages that arrived under it, in order |
| RpcClient.RpcClient.PopToken | rpc_client.py:549-567 | the oldest message of the token is removed and returned, and a list that becomes empty is deleted |
| RpcClient.RpcClient.HandleParts | rpc_client.py:578-586 | a message goes to the end of its token's list, with its socket |
| RpcClient.RpcClient.ReadWaiting | rpc_client.py:595-606 | polls without blocking until a poll finds nothing, and buffers exactly what came before that, in order; the result tells whether anything did |
| RpcClient.RpcClient.Receive | rpc_client.py:595-620 | a wait: buffers exactly what is waiting or, if nothing is, what one further poll finds; false exactly if that poll too found nothing |
| PollScript.IdleIs | rpc_client.py:595-620 | a wait times out exactly if the poll that does not block and the one after it found nothing |
| PollScript.RanSplits | rpc_client.py:595-620 | whatever the number of waits, what they received followed by what is left in the script is the whole script, in order |
| PollScript.OrdinaryIsPatient | rpc_client.py:595-620 | a message that waits, and one that the next wait waits for, are received by two waits neither of which times out, although there are two empty polls between them |
| RpcClient.RpcClient.TakePass | rpc_client.py:640-652 | the loop over the tokens, with the removal of those served after it, computes one pass; a token to be removed is always there |
| RpcClient.RpcClient.WaitForTokens | rpc_client.py:622-667 | waits until every token has been served or a wait times out, exactly as specified; results align with the tokens, each the oldest message had for its token (the n-th if it is listed n times); a token is not served only if one of these waits timed out when it had too few; other tokens keep all they had and got |
| ClientWaits.WaitPromises | rpc_client.py:622-667 | what waiting computes serves each token from all had for it, leaves other tokens alone, and leaves one unserved only if one of its own waits timed out when all this had come |
| RpcClient.RpcClient.WaitForWrites | rpc_client.py:419-439 | counts off messages of one token, in order, until the count is reached, a wait times out or a message is no completion; other tokens are untouched |
| ClientWaits.CountPromises | rpc_client.py:419-439 | the group is the front of all had for the token, and shorter than the count only if one of the waits made timed out when no more had come |
| RpcClient.RpcClient.WaitForAllWrites | rpc_client.py:409-440 | every token with a list is counted off against it, exactly as specified; what was had under it is the list, the group and what is left, in that order; a group is short only if one of the waits timed out when no more had come for its token |
| RpcClient.RpcClient.Send | rpc_client.py:367-379 | one request per server, in order, each under the next token |
| RpcClient.RpcClient.WriteChunks | rpc_client.py:341-407 | tokens are fresh and consecutive; lists, groups, buffer and script are exactly those of waiting for the lists and then counting off; a list is missing or a group short only if one of the call's waits timed out when no more had come for its token; a misread needs a token whose messages are not a list followed by completions |
| RpcClient.Unpack | rpc_client.py:384-387 | each result becomes the list it carries, a missing one stays missing, and a message that is no list is reported |
| WriteSystem.NextInv | l1-rpc.cpp:346-401 | every step of the client, a server, its I/O threads or other clients keeps the global invariant |
| WriteSystem.RunInv | rpc_client.py:189-200 | the invariant holds in every state of every run |
| WriteSystem.AnyoneMayMove | rpc_client.py:371-379 | the runs leave nobody out: the client may send its next token to any server and receive what has come, a server may take the oldest request of the client or any request of another, and I/O threads go on |
| WriteSystem.ChannelReceive | rpc_client.py:600-604 | reading one message keeps: received plus in flight is all that was sent on the connection, in order |
| WriteSystem.AcceptedStep | l1-rpc.cpp:346-401 | a server moves an accepted token only from in hand to listed, whatever else happens |
| WriteGuarantees.ArrivalAttributed | rpc_client.py:578-586 | in every reachable state each buffered message, whatever call it answers, carries the socket its token's request was sent on |
| WriteGuarantees.TokenHistory | rpc_client.py:371-404 | received under a token, followed by in flight, is all its server sent under it, in order, with that server's socket |
| WriteGuarantees.OtherAnswered | l1-rpc.cpp:437-1043 | a call of another answered kind is answered at most once, with its own answer and by the server it was sent to |
| WriteGuarantees.WriteTokenStream | l1-rpc.cpp:874-916 | what a server has sent under a `write_chunks` token is nothing, or the list of its requests followed by the completions drained so far |
| WriteGuarantees.ListThenCompletions | l1-rpc.cpp:837-916 | in every run the first message of a `write_chunks` token is the list, every later one a completion from the same server, each agreeing in beam, fpga0, fpgaN and filename with an entry of the list, and they map injectively to list entries |
| WriteGuarantees.SettledPrefix | rpc_client.py:419-439 | what was counted off is a first part of the server's completions, in server order, under that server's name |
| WriteGuarantees.SettledFull | rpc_client.py:419-439 | a full count is all completions, exactly the listed chunks, with nothing left over |
| WriteGuarantees.OutcomeExact | rpc_client.py:406-440 | a full count leaves nothing of the token buffered and nothing in flight |
| WriteCall.NothingBeforeSending | rpc_client.py:371-379 | no message is received under a token that has not been issued |
| WriteCall.SettledForever | rpc_client.py:409-440 | after a full count no later step of the run produces another message for the token |
| WriteCall.NeverMisread | rpc_client.py:386-387 | the call never meets a message that is out of place |
| WriteCall.CallPromised | rpc_client.py:406-440 | for each token: a full group is exactly the listed completions with nothing left buffered or in flight; a shorter one is a first part of its server's completions, and it or a missing list means that one of the call's waits timed out when no more had come for the token |
| WriteCall.UnhurriedInFull | rpc_client.py:341-440 | if none of the call's waits timed out, every token has its list and exactly all its completions, with nothing left behind |
| WriteComplete.HandledReceived | l1-rpc.cpp:1047-1081 | a server that has taken the request, finished all its writes and drained its queue, with nothing in flight, has had the client receive the list and one completion for each entry |
| WriteCall.PromisedInFull | rpc_client.py:419-439 | if such a server is what the token was sent to, and none of the call's waits timed out while something was still to come, the list is there and the group is full |
| WriteCall.WriteChunksAndWait | rpc_client.py:341-440 | end to end, in every interleaving: the result holds each token's group, whole and in server order, from where the group before it ends; nothing is misread, and each token's group is complete and exact unless one of the call's waits timed out with no more had; if none timed out, all are; if none timed out while something was still to come, all are whose servers have finished |
| MaskCounters.MaskStatsMap.Put | mask_stats.cpp:12-20 | an empty ring buffer is refused; otherwise the key maps to it and other keys are as before |
| MaskCounters.ClipperExact | ch-frb-l1.cpp:783-785 | a stage is a clipper exactly if its class name has the word `clipper` somewhere in it |
| MaskCounters.CounterExact | ch-frb-l1.cpp:787-799 | a stage counts exactly if it is a mask counter whose class name does not have that word |
| MaskCounters.CountersInOrder | ch-frb-l1.cpp:780-802 | the counters found are those of all stages that count, in the order of the chain |
| MaskCounters.FindMaskCounters | ch-frb-l1.cpp:774-802 | the counters in visiting order; usable exactly if the last counter has no clipper after it |
| MaskCounters.InitMaskCounters | ch-frb-l1.cpp:772-825 | fails exactly if masks are wanted and the chain does not end by counting the final mask, or a ring buffer is missing; only the last counter fills chunks, and only if masks are wanted |
| MaskCounters.PutAllFinds | ch-frb-l1.cpp:813-824 | each place of a beam is then found with the last counter placed there, and other keys are untouched |
| Startup.StepInv | ch-frb-l1.cpp:1368-1404 | every step of the main thread or a dedispersion thread keeps the slots, the lock, the poll's count and the maps consistent |
| Startup.RunInv | ch-frb-l1.cpp:1570-1572 | the startup invariant holds in every state of every run |
| Startup.MainOkStep | ch-frb-l1.cpp:1370-1382 | the poll counts only beams whose threads have given the mutex back, so building starts with all registered |
| Startup.MapsStep | ch-frb-l1.cpp:813-824 | a stream's map holds exactly the counters its beams have entered so far |
| Startup.StreamIsBlock | ch-frb-l1.cpp:1388-1401 | the streams have consecutive blocks of beams, all equally many |
| Startup.OnlyLockHinders | ch-frb-l1.cpp:1370-1382 | while no thread has thrown, a thread can always take its next step unless it waits for the mutex and another has it, and one that exists can throw at any time |
| Startup.ReadsAreSound | ch-frb-l1.cpp:1384-1404 | whenever an RPC server exists, every beam has registered its dedisperser and its two latency stages, each in its own vector, every server has its own beams' objects, the maps hold all counters, and no later step changes any of it |
| Startup.MeasurementsFound | mask_stats.cpp:12-20 | if a stream's beams have distinct identifiers, the server finds under a beam's identifier and each place in its chain the ring buffer of the beam's last counter there |
| Startup.NeverStuck | ch-frb-l1.cpp:1370-1382 | unless a thread has thrown, some step other than throwing is possible until every server exists |
| StartupEnds.CanFinish | ch-frb-l1.cpp:1359-1404 | if no chain gives its thread reason to throw, every run in which none has thrown can be continued until every server exists |
| L1Server.Server.SetBonsai | ch-frb-l1.cpp:1477-1486 | the beam's slot of each of the three vectors gets the beam's own object for it and the others keep theirs, as the machine's steps from waiting for the mutex to releasing it do |
| L1Server.Server.AllRegistered | ch-frb-l1.cpp:1372-1379 | the count equals the number of beams exactly if every slot is filled |
| L1Server.Server.BuildServer | ch-frb-l1.cpp:1392-1401 | a stream's server gets its own block of dedispersers, and for each beam the monitors before and after RFI removal under its identifier |
| L1Server.Server.BuildServers | ch-frb-l1.cpp:1388-1404 | one server per stream, in order |
| L1Server.BuiltComplete | ch-frb-l1.cpp:1384-1401 | built after the poll, the server of a stream has, for each beam of its block, the dedisperser, the stage before RFI removal under `before_rfi` and the one after it under `after_rfi`, with the beam's identifier |
| L0Params.CheckInput | simulate-l0.cpp:35-77 | passes exactly the inputs whose lists, ranges and divisibility are right, with both lists as long as the longer one; otherwise the first check that fails is the one reported |
| L0Params.ChoosePacket | simulate-l0.cpp:86-110 | accepts exactly when packets fit, and reports which check failed; the number of channels divides a thread's, fits, and is the one asked for or a power of two that is largest by the estimate used |
| L0Params.MakeParams | simulate-l0.cpp:35-120 | succeeds exactly on acceptable input; all divisions are exact, the packet size is within the limit, and the final assertions never fire; unused parameters are reported exactly if nothing else is wrong |
| L0Params.Xdiv | ch_frb_l1.hpp:62-66 | under its assertion the quotient is positive and exact |
| L0Params.PacketScales | simulate-l0.cpp:102-112 | a packet of n channels is no larger than n packets of one |
| L0Params.PacketGrows | simulate-l0.cpp:95-103 | a packet of no channels is its header, and each channel more adds the same amount |
| L0Params.PortsInRange | simulate-l0.cpp:55-56 | true exactly if every port is positive and below 65536 |
| L0Params.ChosenFits | simulate-l0.cpp:108-109 | the rounded quotient, or a thread's channels if fewer, is a power of two that divides and fits |
| L0Params.ThreadsDivide | simulate-l0.cpp:80-83 | the threads of a stream divide the coarse channels, so that division's assertion never fires |
| L0Params.VRange | ch_frb_l1.hpp:86-95 | the integers from the lower bound up to, not including, the upper |
| L0Params.ExactIsUsable | simulate-l0.cpp:79-84 | the parameters of every accepted configuration meet what the split over threads needs |
| L0Params.MakeOstream | simulate-l0.cpp:131-155 | a thread's stream, address, beams, channels and whether it ends the stream |
| L0Params.OstreamExact | simulate-l0.cpp:131-155 | threads go to streams in blocks; a thread sends to the address and port of its stream the stream's block of beams and its own block of the coarse channels, and the last thread of a block ends the stream |
| L0Params.MakeStreams | simulate-l0.cpp:122-126 | one stream object for every thread, in order |
| L0Params.Partition | simulate-l0.cpp:131-141 | every coarse frequency of every beam is sent by exactly one thread, to the stream the beam belongs to |
| L0Params.OneEnds | simulate-l0.cpp:151-152 | each stream has exactly one thread that ends it |
| PowersOfTwo.IsPowerOfTwoExact | ch_frb_l1.hpp:68-72 | the bit trick holds exactly for powers of two |
| PowersOfTwo.RoundDown | ch_frb_l1.hpp:80-84 | the result is at most x and more than half of it |
| PowersOfTwo.RoundDownIsPow2 | ch_frb_l1.hpp:80-84 | the result is a power of two |
| MemoryPools.Chunks | ch-frb-l1.cpp:611-613 | the fewest chunks, at least two, that hold the samples |
| MemoryPools.WidthDoubles | ch-frb-l1.cpp:620-624 | a chunk of level 0 has `nt_per_assembled_chunk` samples, and one of each further level twice as many as one of the level before |
| MemoryPools.SizeRings | ch-frb-l1.cpp:621-627 | each level gets the fewest chunks, at least two, of width two to the level times a chunk's |
| MemoryPools.LiveChunks | ch-frb-l1.cpp:646-659 | two active chunks, both kinds of ring buffer, and spare ones that with level 0 make at least four |
| MemoryPools.SizeMemory | ch-frb-l1.cpp:504-664 | succeeds exactly on configurations that pass these checks; the total is what all beams and streams need plus the whole slabs of the staging area |
| MemoryPools.CheckConfig | ch-frb-l1.cpp:504-560 | true exactly on configurations with positive beams, streams and samples, at most four levels, of which the first is no shorter than the assembled ring, a staging area that is not negative, and as many beams for each stream |
| MemoryPools.Staging | ch-frb-l1.cpp:662 | the largest number of whole slabs within the staging area |
| MemoryPools.Level0Suffices | ch-frb-l1.cpp:544-545 | level 0 holds at least as many chunks as the assembled ring buffer |
| MemoryPools.ChooseCpus | ch-frb-l1.cpp:1085-1174 | one CPU below five beams, two for the 8- and 16-beam nodes with their required streams, an error otherwise; the CPUs divide the streams |
| MemoryPools.MakePools | ch-frb-l1.cpp:1261-1273 | each CPU gets the total divided by the number of CPUs |
| MemoryPools.PoolIsBlock | ch-frb-l1.cpp:1285-1293 | each CPU's pool is given to a block of consecutive streams |
| MemoryPools.DemandIs | ch-frb-l1.cpp:1285-1293 | a CPU's pool serves exactly as many streams as its share |
| MemoryPools.PoolsSuffice | ch-frb-l1.cpp:1261-1293 | every CPU's pool is at least the demand of exactly the streams assigned to it, and every stream is assigned to a pool that exists |
| StreamBeams.VContains | ch_frb_l1.hpp:116-125 | true exactly if the value occurs |
| StreamBeams.SubsetOf | ch-frb-l1.cpp:589-591 | true exactly if every beam to be saved is one of the node's |
| StreamBeams.SelectBeams | ch-frb-l1.cpp:1345-1350 | the beams to be saved that are the stream's own, in order |
| StreamBeams.SelectedInOrder | ch-frb-l1.cpp:1345-1350 | the beams selected are all the stream's own among those asked for, in the order asked for |
| StreamBeams.SavedOnce | ch-frb-l1.cpp:1345-1354 | if the node's beams are distinct, each beam to be saved is saved by its own stream, as often as it is listed, and by no other |
| ArgParser.ParseResult.ParseOption | cxxopts.hpp:1498-1511 | an accepted value is counted, stored and listed under the long name; any other is an error |
| ArgParser.ParseResult.CheckedParseArg | cxxopts.hpp:1513-1547 | the implicit value if there is one, else the next entry, else an error; the index never passes the end |
| ArgParser.ParseResult.ConsumePositional | cxxopts.hpp:1563-1597 | the word goes where the meaning says, advancing the positional state, or nowhere |
| ArgParser.ParseResult.ParseCluster | cxxopts.hpp:1675-1707 | letters are read in order; only the last may take the next entry |
| ArgParser.ParseResult.ReadArgument | cxxopts.hpp:1650-1733 | one turn of the loop: the vector stays its kept entries in front of the unread ones, which are never overwritten |
| ArgParser.ParseResult.ScanArguments | cxxopts.hpp:1635-1734 | the loop up to the marker computes the meaning of the entries read, and ends at the marker or at the end |
| ArgParser.ParseResult.ParseDefaults | cxxopts.hpp:1736-1746 | exactly the options given nothing get their default, in whatever order the names come; an unacceptable default is an error |
| ArgParser.ParseResult.ConsumeRemaining | cxxopts.hpp:1748-1764 | after the marker words are placed until one finds no place, and the rest is kept |
| ArgParser.ParseResult.Parse | cxxopts.hpp:1631-1768 | the parser computes the vector's meaning; on success the vector is the program, the kept entries in order, and an untouched rest, and the new count is theirs |
| ArgParser.ParseResult.Count | cxxopts.hpp:1083-1095 | the number of values stored for the name's option, its default included, or zero |
| ArgParser.KeptInOrder | cxxopts.hpp:1650-1764 | the entries left in the vector are all those with the role kept, in the order in which they came |
| Lexis.LongNameExact | cxxopts.hpp:1300-1301 | a long name is at least two characters, the first a letter or digit, the others letters, digits, hyphens or underscores |
| Lexis.ShortExact | cxxopts.hpp:1300-1301 | an argument is a cluster of short options exactly if it is a hyphen and those letters, at least one, each a letter or a digit |
| Lexis.LongExact | cxxopts.hpp:1300-1301 | an argument is a long option without a value exactly if it is two hyphens and that name, a long name |
| Lexis.LongValueExact | cxxopts.hpp:1300-1301 | an argument is a long option with a value exactly if it is two hyphens, that long name, an equals sign and that value, on one line |
| Lexis.FlagExact | cxxopts.hpp:446-449 | a flag accepts exactly the empty text and `true` and `false` with a small or capital first letter, in full or by that letter alone |
| Lexis.IntegerAccepted | cxxopts.hpp:514-584 | an integer option accepts exactly the numerals in the range of its type, and at 32 and 64 bits also those whose overflow goes unnoticed |
| CommandLineErrors.ClusterError | cxxopts.hpp:1680-1706 | a cluster is refused for the first letter that cannot be given: as not declared, as of the wrong type, as needing an argument it cannot take, or as missing one |
| CommandLineErrors.LongError | cxxopts.hpp:1708-1729 | a long option is refused as not declared, for its value, its implicit value or the next entry being of the wrong type, or for a missing argument |
| CommandLineErrors.WordError | cxxopts.hpp:1563-1597 | a positional word is refused only as being of the wrong type for the option it goes to |
| CommandLineErrors.ScanStops | cxxopts.hpp:1641-1734 | a vector that is refused before its marker is refused for the first entry that cannot be read |
| CommandLineErrors.FirstError | cxxopts.hpp:1631-1768 | an entry before the marker is complained of before a default, and a default before a word after the marker |
| CommandLineRoles.TakeFlagMeans | cxxopts.hpp:1671-1730 | an option entry is read exactly if each name is declared and gets an acceptable value; it sets one value per name, and takes the next entry exactly if its last name needs one |
| CommandLineRoles.PlaceFirst | cxxopts.hpp:1565-1597 | a word goes to the first positional option, from the next on, that is declared and is a container or empty; it is kept exactly if there is none |
| CommandLineRoles.ParseSound | cxxopts.hpp:1633-1768 | every parse gives each entry a role its place calls for, leaves no option without its value, and records exactly what the entries say, in order |
| CommandLineRoles.OneSplit | cxxopts.hpp:1641-1734 | which entries are options, values, markers and words is settled by the options alone, whatever happens to the words |
| CommandLineMeaning.MeaningExact | cxxopts.hpp:1631-1768 | a vector parses to a result exactly if its roles split the vector, each word going to the first option that can take it or being kept for want of one, the defaults can be read, and the result is what that split says |
| CommandLineMeaning.SplitUnique | cxxopts.hpp:1631-1768 | a vector has at most one such split, and is refused exactly if it has none |
| DefaultsFirst.DefaultsMatter | cxxopts.hpp:1736-1764 | a word after the marker that the first option able to take it accepts fares as without defaults exactly if that option is a container, has no default due, or does not exist |
| DefaultsFirst.DefaultsFirstExample | cxxopts.hpp:1736-1764 | `w` goes to an option with a default, and `-- w` leaves it its default and keeps `w` |
| DefaultsFirst.DefaultedExact | cxxopts.hpp:1736-1746 | an option gets its default exactly if it has a name and a default and was given nothing |
| DefaultsFirst.StoredExact | cxxopts.hpp:1736-1746 | the first text of an option that got its default is the default, and those after it are what it was given |
| DefaultsFirst.TextsAre | cxxopts.hpp:1498-1511 | an option's texts are those of all its own entries in the log, in their order |
| DefaultsFirst.ReadableExact | cxxopts.hpp:1736-1746 | the defaults pass exactly if every option that has one and was given nothing accepts its text |
| PrintedArguments.ClassifySetting | cxxopts.hpp:1300-1301 | `--name=value` is a long option with that name and value |
| PrintedArguments.PrintThenParse | cxxopts.hpp:1633-1768 | printed settings mixed with words, and any words after `--`, are read back item for item, and nothing is kept |
| DeclaredOptions.SpecExact | cxxopts.hpp:1303-1304 | a specification yields two names exactly if it is a letter and a comma, or neither, then spaces, then a name or nothing, with these as its names |
| DeclaredOptions.NameExact | cxxopts.hpp:1303-1304 | a name in a specification is empty, or a letter or digit followed by letters, digits, hyphens and underscores |
| DeclaredOptions.Options.AddOneOption | cxxopts.hpp:1806-1820 | a name is added only if it is new |
| DeclaredOptions.Options.AddOption | cxxopts.hpp:1770-1793 | both names lead to the new option; on failure the short one has been added if it was new, so the names are as before exactly if it is empty or was taken |
| DeclaredOptions.HalfAddedExample | cxxopts.hpp:1770-1793 | `v,verbose` is refused where `verbose` is taken, and `v` then leads to the new option |
| DeclaredOptions.DeclareExact | cxxopts.hpp:1770-1820 | declarations succeed exactly if no name is used twice, and then each name leads to the option it was declared for |
| DeclaredOptions.SameUnderBothNames | cxxopts.hpp:1083-1095 | an option has the same values, and so the same count, under its short and its long name |
| DeclaredOptions.PrintedIsSequential | cxxopts.hpp:1498-1511 | the sequential list of a printed vector is the printed items, in order, under their long names |
| IntegerParser.ParseInteger | cxxopts.hpp:514-584 | the parser computes the specified result for every type and text |
| IntegerParser.Accumulate | cxxopts.hpp:543-575 | the loop over the digits accepts or refuses as specified, and yields the accumulated number |
| IntegerParser.NarrowExact | cxxopts.hpp:543-575 | at 8 and 16 bits the digits are accepted exactly if the number fits, and the result is the number |
| IntegerParser.AccumulatedExact | cxxopts.hpp:564-569 | at 32 and 64 bits the digits are accepted exactly if the wrapped products leave room, and the result is the number modulo two to the width |
| IntegerParser.ParsedNarrow | cxxopts.hpp:454-584 | an 8- or 16-bit type accepts a text as v exactly if the text means v and v is in range |
| IntegerParser.ParsedModulo | cxxopts.hpp:454-584 | for every type an accepted value is in range and congruent to the numeral, and a refused text is no numeral or out of range |
| IntegerParser.WideExact | cxxopts.hpp:564-577 | a 32- or 64-bit type reads a text rightly exactly unless an overflow goes unnoticed by every product and by the sign check |
| IntegerParser.ReadBack | cxxopts.hpp:514-584 | every number of every type survives being written in decimal and read back |
| IntegerParser.TenfoldWraps | cxxopts.hpp:564-569 | an unsigned 32- or 64-bit type takes ten times any number it holds for that product modulo two to its width |
| IntegerParser.TenfoldWrong | cxxopts.hpp:564-569 | so such products that do not fit are misread: 4294967300 as 4 |
| NumeralSyntax.Ranges | cxxopts.hpp:454-512 | the ranges of the eight types, in numbers |
| NumeralSyntax.DecimalDigit | cxxopts.hpp:543-549 | in base ten a digit is one of ten characters, and its value is its place among them |
| NumeralSyntax.HexDigit | cxxopts.hpp:543-562 | in base sixteen a digit is one of sixteen characters, the letters in either case, and its value is its place among them |
| NumeralSyntax.NumeralExact | cxxopts.hpp:444-445 | a text is a numeral with a sign, a base and digits exactly if it is an optional minus sign, `0x` for base sixteen, and letters and digits of which the first is not zero |
| NumeralSyntax.ZeroExact | cxxopts.hpp:444-445 | zero is `0` or `0x0` |
| NumeralSyntax.HexReadBack | cxxopts.hpp:514-584 | every positive number written in base sixteen means itself, and with a minus sign its negative |
| UrlCodec.UrlEncode | civetweb/CivetServer.cpp:555-577 | the destination, kept or cleared, followed by the encoding of the source |
| UrlCodec.UrlDecode | civetweb/CivetServer.cpp:431-455 | the decoding of the source, escapes and plus signs included |
| UrlCodec.DecodeEncode | civetweb/CivetServer.cpp:431-577 | decoding undoes encoding for every byte string and both settings of the form flag |
| UrlCodec.EncodedSafe | civetweb/CivetServer.cpp:555-577 | encoded text has no ampersand, equals sign, plus or space, and a percent sign only at the start of an escape |
| UrlCodec.ZeroKept | civetweb/CivetServer.cpp:567-575 | the encoding has a zero byte exactly if the source has one |
| UrlCodec.ZeroExample | civetweb/CivetServer.cpp:567-575 | the encoding of one zero byte is that byte |
| UrlSyntax.UnescapedExact | civetweb/CivetServer.cpp:561-570 | exactly letters, digits, `._-$,;~()` and the zero byte are written as they are |
| UrlSyntax.EscapeExact | civetweb/CivetServer.cpp:571-575 | every other byte is written as a percent sign and two digits of base sixteen in lower case, the higher first |
| UrlSyntax.EncodedByByte | civetweb/CivetServer.cpp:567-576 | the encoding is that of each byte, in order |
| UrlSyntax.HexExact | civetweb/CivetServer.cpp:438-447 | a digit of base sixteen is read in either case, with its usual value |
| UrlSyntax.DecodedEscape | civetweb/CivetServer.cpp:442-448 | a percent sign and two such digits are read as one byte, the higher digit first |
| UrlSyntax.DecodedByte | civetweb/CivetServer.cpp:449-453 | where no escape begins a byte is read as itself, but in a form a plus sign as a space |
| QueryParams.GetParam | civetweb/CivetServer.cpp:509-547 | null arguments find nothing; otherwise the scan's field, decoded, or nothing |
| QueryParams.FormLookup | civetweb/CivetServer.cpp:509-547 | for a name that does not span fields, the k-th field of every form whose key equals the name up to case |
| QueryParams.LookupExact | civetweb/CivetServer.cpp:527-545 | lookups are right on all forms at all occurrences exactly for the names that do not span fields |
| QueryParams.SpanningNeedsBoth | civetweb/CivetServer.cpp:527-545 | a name without an equals sign or without an ampersand does not span |
| QueryParams.SpanningNameExample | civetweb/CivetServer.cpp:527-545 | `a=1&b` finds the 2 of `a=1&b=2` although no key equals it |
| QueryParams.PickIsKth | civetweb/CivetServer.cpp:527-530 | the field picked has exactly k matching fields before it; none exactly if at most k match |
| ParamSearch.SameFoldExact | civetweb/CivetServer.cpp:528-530 | names are the same exactly if they are as long and agree at each place up to the case of a letter |
| ParamSearch.LookupIgnoresCase | civetweb/CivetServer.cpp:528-530 | in any text a lookup finds under a name what it finds under the name in capitals |
| ParamSearch.LookupFinds | civetweb/CivetServer.cpp:509-547 | in any text the k-th occurrence of a name is the decoded value of the field that begins after exactly k others of that name; nothing is found exactly if no more than k begin |
| Replace.ReplaceAll | l1-rpc.cpp:422-428 | whenever the loop can end, it yields the text after some number of first-occurrence replacements in which no occurrence is left |
| Replace.DisjointEnds | l1-rpc.cpp:422-428 | with a text to replace that is not empty and shares no character with the replacement, the loop ends on every input |
| Replace.EndsOnlyIfAbsent | l1-rpc.cpp:422-428 | if the replacement contains the text replaced, as it does when that is empty, the loop ends exactly for inputs without it |
| Replace.SpliceDraws | l1-rpc.cpp:425-426 | each replacement lowers the number of characters drawn from the text replaced |
| Replace.ReplacedIsSimultaneous | l1-rpc.cpp:422-428 | with a replacement that is not empty, one by one equals one simultaneous pass |
| Replace.ReplaceExact | l1-rpc.cpp:422-428 | one by one equals one simultaneous pass on all inputs exactly if the replacement is not empty or the text replaced is a run of one character |
| AcqPath.DirIsFront | file_utils.cpp:109-120 | a pattern has a directory exactly if it is that directory followed by two further components |
| AcqPath.MetadataDir | l1-rpc.cpp:527-535 | the directory or the error of each of its three steps |
| AcqPath.MetadataDirExact | file_utils.cpp:87-120 | an nfs acquisition's metadata go to `/frb-archiver-<id>/acq_data/<name>` and an ssd one's to `/local/acq_data/<name>`, with placeholders in the name itself replaced; a name without one is unchanged |
| AcqPath.NoMetadataDir | file_utils.cpp:87-115 | without an acquisition or beams, with directories that fail their checks, or on another device there is no directory, and the error says which |
| AcqPath.PatternExact | file_utils.cpp:87-105 | the file name patterns of the two devices, the empty one of no acquisition, and the errors |
| AcqPath.SameDeviceExact | file_utils.cpp:92-97 | devices are the same if their names agree up to the case of letters |

## Left out

- Replace.ReplaceAll: when the loop ends is stated for texts that share no character and for a replacement that contains the text replaced; between these it depends on the input.
- RpcClient.RpcClient.Receive: the elapsed-time arithmetic of timeouts, which mixes seconds and milliseconds.
- AcqPath.MetadataDir: the checks on the file system are one parameter, and writing the metadata file is not modelled.
- MemoryPools.SizeMemory: the configuration checks that concern neither memory nor the split into streams.
- Startup.ReadsAreSound: the Prometheus servers, which start before the dedispersion threads, and toy mode, in which no thread registers.
- ArgParser.ParseResult.Parse: on an exception only which one is stated, since the object being built is discarded; which of several unacceptable defaults is named depends on the hash table's order.
- CommandLine: floating-point option values, which go through a string stream, and the values' external storage.
- IntegerParser, CommandLine: the regular expressions are predicates and splitters, not an engine.
- `write_chunks` with `wait=False` or `waitAll=False`, and what the answers of the other RPCs contain; that they are answered under their own token is modelled.
- What the server still has queued when its loop stops, which it drops.
- ZeroMQ, msgpack, `ch_frb_io`, `bonsai` and `rf_pipelines`, which are not part of this model beyond the assumptions above.
- Core pinning, unassembled ring buffer sizes, L1B pipe capacity, YAML reading, sockets, directories and process launching.
- The connection form of `getParam`, which only fetches the data.
- `round_up_to_power_of_two` and `vconcat`, and help texts.
- RFI mask packing and the L0 sub-chunk timestamps of `send_chunks`.
