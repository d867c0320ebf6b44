# spserver IOCP core, modelled in Dafny

This project models four pieces of the Windows (IOCP) build of spserver:

- **The line-echo handler** (`SP_EchoHandler` in `trunk/spserver/testiocpecho.cpp`).
  - `start` installs a multi-line decoder and writes the welcome banner.
  - `handle` pops every decoded line and appends each one's reply to the response. A line is echoed with CRLF. A line equal to `quit`, ignoring case, gets `Byebye` instead. The result is -1 (close the session) when some line was `quit`.
- **The server object** (`SP_IocpServer` in `trunk/spserver/spiocpserver.cpp`).
  - Its settings, with the defaults and the setters that keep a value when the argument is not positive.
  - The shutdown and running flags.
  - `outputCompleted`.
  - `start`. It opens the listening socket, registers it with the completion port and starts the accept thread. Then, until shut down, each pass of its loop hands every finished read to the worker executor and every finished write to the single-threaded "act" executor, oldest first.
- **The stress client** (`spserver/testiocpstress.cpp`).
  - Each connected client has a descriptor, a send counter, a receive counter, and a receive and a send event, each with a 4096-byte buffer.
  - `close_client`, `on_read`, `on_write` and the completion dispatch of `eventLoop`.
  - The part of `main` that starts every client, loops until all have exited and reports the totals.
- **The I/O helpers** (`SP_IOUtils` in `trunk/spserver/spioutils.cpp`). These are `inetNtoa`, `setNonblock` and `setBlock`, and the guarded chain of system calls in `tcpListen`.

Every system call becomes an input, chosen by the caller, that says what the call returned. This covers `socket`, `fcntl`, `setsockopt`, `inet_aton`, `bind`, `listen`, `CreateIoCompletionPort`, `pthread_create`, `WSARecv`/`WSASend` and `GetQueuedCompletionStatus`. Loops that only external events end are modelled over a finite sequence of iterations given by the caller. There are two: the server's `while( 0 == mIsShutdown )` and the client's `while( gClients > 0 )`.

Files:

- `wrappers.dfy`: `Option`.
- `format.dfy`: what `%d`/`%i` writes, a parser that reads its digits back, and the truncation `snprintf` applies to a buffer of a given size.
- `io_utils.dfy`, `iocp_server.dfy`, `echo_handler.dfy`, `stress_client.dfy`: one module per source file.

`setTimeout` (`trunk/spserver/spiocpserver.cpp:47-50`) ignores an argument that is not positive, so the echo server's `setTimeout( 0 )` keeps the default 600 (`IocpServer.ConfigureEchoServer`).

The clients of the stress test live in one `calloc`ed array, so no two share an event or a buffer. The model states this as `FootprintsDisjoint`. `StressClient.StressTest.Connect` establishes it, and the first loop and `Run` require it.

## Model

| member | source | states |
|---|---|---|
| Format.DecimalDigits | trunk/spserver/spioutils.cpp:20 | the digits `%i` writes for a non-negative value: at least one digit, all decimal, no leading zero, and "0" exactly for zero |
| Format.ParseDecimalDigits | trunk/spserver/spioutils.cpp:20 | reading back the digits written for n gives n (round trip) |
| Format.DecimalDigitsInjective | spserver/testiocpstress.cpp:95-97 | distinct numbers are formatted as distinct digit strings |
| Format.DecimalDigitsLength | spserver/testiocpstress.cpp:95-97 | a value below 10^d is written with at most d digits |
| Format.Snprintf | trunk/spserver/spioutils.cpp:20 | `snprintf` into `size` bytes: nothing is written for size 0; otherwise the output is a prefix of the full text, shorter than `size`, exactly `size - 1` characters when truncated, and the whole text when it fits (or when a negative size converts to a huge `size_t`) |
| IOUtils.DottedQuad | trunk/spserver/spioutils.cpp:19-20 | the `%i.%i.%i.%i` text of four bytes holds only decimal digits and dots |
| IOUtils.InetNtoa | trunk/spserver/spioutils.cpp:15-24 | nothing is written for a size of 0; otherwise `ip` receives a prefix of the dotted quad, at most 15 characters and shorter than a positive size |
| IOUtils.DottedQuadLength | trunk/spserver/spioutils.cpp:19-20 | the `%i.%i.%i.%i` text of four bytes is 7 to 15 characters long |
| IOUtils.InetNtoaFits | trunk/spserver/spioutils.cpp:15-24 | with a buffer of at least 16 bytes, `inetNtoa` writes the whole dotted quad, untruncated |
| IOUtils.ParseInetNtoa | trunk/spserver/spioutils.cpp:19-20 | round trip: parsing the dotted quad `inetNtoa` writes gives back exactly the four address bytes, in memory order |
| IOUtils.WithNonblock | trunk/spserver/spioutils.cpp:37 | the bitwise or of the flags with `O_NONBLOCK` has the non-blocking bit set and every other bit as before |
| IOUtils.WithoutNonblock | trunk/spserver/spioutils.cpp:58 | `flags & ~O_NONBLOCK` has the non-blocking bit clear and every other bit as before |
| IOUtils.NonblockRoundTrip | trunk/spserver/spioutils.cpp:37-58 | setting then clearing the bit restores flags that had it clear, and clearing then setting restores flags that had it set |
| IOUtils.SetNonblock | trunk/spserver/spioutils.cpp:26-42 | a negative `F_GETFL` result is returned unchanged and `F_SETFL` is not called; otherwise `F_SETFL` receives the flags with the bit set, and the result is -1 when it fails and 0 otherwise |
| IOUtils.SetBlock | trunk/spserver/spioutils.cpp:44-63 | the same status chain as `setNonblock`, with the bit cleared instead |
| IOUtils.InStageOrderIncreasing | trunk/spserver/spioutils.cpp:65-132 | calls in stage order have strictly increasing ranks, so no kind of call is made twice |
| IOUtils.ThenCalled | trunk/spserver/spioutils.cpp:75-122 | a guarded stage adds its own call exactly when its guard holds |
| IOUtils.GuardedCallsCalled | trunk/spserver/spioutils.cpp:65-124 | each call of the chain is made exactly when its guard holds; the socket is always opened |
| IOUtils.GuardedCallsOrdered | trunk/spserver/spioutils.cpp:65-124 | the guarded chain makes its calls in the order of the source |
| IOUtils.Guards | trunk/spserver/spioutils.cpp:65-124 | each stage of `tcpListen` runs only after the earlier ones: `listen` after `bind`; `bind` after the socket options and, for a given address, its conversion; the options after the socket and, unless blocking, the mode step; the socket is closed exactly when it was opened and the call did not end in a successful `listen` |
| IOUtils.ListenCalls | trunk/spserver/spioutils.cpp:65-124 | the first call opens the socket; when `socket` fails it is the only call; otherwise the last call is `listen` on success and the close of the socket on failure |
| IOUtils.ListenCallsStages | trunk/spserver/spioutils.cpp:65-124 | which calls `tcpListen` makes, see the notes below this table |
| IOUtils.ListenCallsOrdered | trunk/spserver/spioutils.cpp:65-124 | `tcpListen` makes each kind of call at most once, in source order |
| IOUtils.TcpListen | trunk/spserver/spioutils.cpp:65-132 | the result is 0 or -1, and 0 exactly when every stage succeeded; `*fd` is written (with the socket) only on success; the calls made are those of `ListenCalls` |
| EchoHandler.StrCaseCmp | trunk/spserver/testiocpecho.cpp:52 | strings equal ignoring ASCII case compare as zero |
| EchoHandler.StrCaseCmpAgainst | trunk/spserver/testiocpecho.cpp:52 | against a C string `b`, `strcasecmp` is zero exactly when the other string starts with `b`, ignoring case, and ends there or continues with a NUL (both directions) |
| EchoHandler.IsQuit | trunk/spserver/testiocpecho.cpp:52 | a line passes the `quit` test exactly when its first four characters lower to "quit" and it ends there or a NUL follows |
| EchoHandler.StrCaseCmpZero | trunk/spserver/testiocpecho.cpp:52 | for NUL-free strings, `strcasecmp` is zero exactly when the strings are equal ignoring ASCII case (both directions) |
| EchoHandler.IsQuitMeansQuitIgnoringCase | trunk/spserver/testiocpecho.cpp:52 | a line passes the `quit` test exactly when it is four characters that lower to "quit" |
| EchoHandler.HasQuitAt | trunk/spserver/testiocpecho.cpp:48-58 | a batch has a `quit` exactly when some line of it passes the `quit` test |
| EchoHandler.HasQuitIgnoringCase | trunk/spserver/testiocpecho.cpp:48-58 | for the C strings a line decoder queues, a batch has a `quit` exactly when some line is "quit" in any mix of case |
| EchoHandler.ReplyFor | trunk/spserver/testiocpecho.cpp:52-58 | the reply to every line, echo or `Byebye`, ends in CRLF |
| EchoHandler.EchoReply | trunk/spserver/testiocpecho.cpp:49-58 | a batch's reply has at least two characters per line and ends in CRLF when the batch has a line |
| EchoHandler.EchoReplyAppend | trunk/spserver/testiocpecho.cpp:49-61 | the reply to two batches handled one after the other is the reply to the joined batch |
| EchoHandler.EchoReplyAroundQuit | trunk/spserver/testiocpecho.cpp:55-58 | a `quit` answers `Byebye` in its place, is not echoed, and the lines after it are still echoed (the loop does not break) |
| EchoHandler.SplitEchoReply | trunk/spserver/testiocpecho.cpp:52-54 | round trip: when no line holds CR or is `quit`, splitting the reply at CRLF gives back exactly the lines, in order |
| EchoHandler.Handler.Start | trunk/spserver/testiocpecho.cpp:35-41 | installs an empty line decoder, appends exactly the welcome line and returns 0 |
| EchoHandler.Handler.Handle | trunk/spserver/testiocpecho.cpp:44-64 | the queue ends empty; the old reply stays a prefix, followed by each popped line's reply in queue order; the result is -1 exactly when some line was `quit`, and 0 otherwise |
| EchoHandler.Handler.EchoLine | trunk/spserver/testiocpecho.cpp:52-58 | one popped line appends its echo and CRLF, or `Byebye` for `quit`, and reports which |
| EchoHandler.Handler.Error | trunk/spserver/testiocpecho.cpp:66 | leaves the response unchanged |
| EchoHandler.Handler.Timeout | trunk/spserver/testiocpecho.cpp:68 | leaves the response unchanged |
| EchoHandler.HandlerFactory.Create | trunk/spserver/testiocpecho.cpp:78-80 | returns a new handler |
| EchoHandler.HelloReply | trunk/spserver/testiocpecho.cpp:49-58 | "hello" sent alone is a C string, is echoed as "hello" and CRLF, and does not close the session |
| EchoHandler.QuitReply | trunk/spserver/testiocpecho.cpp:49-58 | "quit" sent alone is a C string, is answered with `Byebye`, and closes the session |
| EchoHandler.GreetEchoQuit | trunk/spserver/testiocpecho.cpp:35-64 | the greeting, then "hello" echoed with CRLF, then `Byebye` and a request to close the session |
| IocpServer.OutputCompleted | trunk/spserver/spiocpserver.cpp:127-135 | the handler is told about the message exactly once |
| IocpServer.IocpEventArg.PopInput | trunk/spserver/spiocpserver.cpp:215-216 | pops the oldest task and leaves the output queue alone |
| IocpServer.IocpEventArg.PopOutput | trunk/spserver/spiocpserver.cpp:220-221 | pops the oldest message and leaves the input queue alone |
| IocpServer.WorkItems | trunk/spserver/spiocpserver.cpp:215-218 | one worker submission per task, in queue order |
| IocpServer.OutputItems | trunk/spserver/spiocpserver.cpp:220-228 | one act submission per message, in queue order, each paired with the single completion handler |
| IocpServer.RoundsRun | trunk/spserver/spiocpserver.cpp:212-229 | the loop runs every round up to and including the first that requests shutdown, and at least one round when any is given |
| IocpServer.RoundsRunUnique | trunk/spserver/spiocpserver.cpp:212-229 | a count of rounds that stops at the first shutdown request, or after all rounds, is exactly `RoundsRun` |
| IocpServer.StartResult | trunk/spserver/spiocpserver.cpp:173-205 | `start` returns 0 exactly when listening, registration with the completion port and creation of the accept thread all succeed, and -1 otherwise |
| IocpServer.Defaults | trunk/spserver/spiocpserver.cpp:21-36 | a new server has the address and port given, is neither shut down nor running, and has a positive timeout, thread count, queue size and connection limit |
| IocpServer.PositiveOr | trunk/spserver/spiocpserver.cpp:47-64 | a setter's new value is either its argument or the old value, and it is positive exactly when one of them is |
| IocpServer.PositiveOrKeeps | trunk/spserver/spiocpserver.cpp:47-64 | a positive-or-keep update keeps a positive value positive, ignores a non-positive argument, takes a positive one, and applying it twice is the same as once |
| IocpServer.Server.constructor | trunk/spserver/spiocpserver.cpp:21-36 | the address and port given; not shut down, not running; timeout 600, 64 threads, queue size 128, 256 connections, and the "System busy" refusal message |
| IocpServer.Server.SetTimeout | trunk/spserver/spiocpserver.cpp:47-50 | only the timeout may change, and only to a positive argument; positive counts stay positive |
| IocpServer.Server.SetMaxThreads | trunk/spserver/spiocpserver.cpp:52-55 | only the thread count may change, and only to a positive argument |
| IocpServer.Server.SetMaxConnections | trunk/spserver/spiocpserver.cpp:57-60 | only the connection limit may change, and only to a positive argument |
| IocpServer.Server.SetReqQueueSize | trunk/spserver/spiocpserver.cpp:62-68 | the queue size changes only for a positive argument, and the refusal message is always replaced |
| IocpServer.Server.Shutdown | trunk/spserver/spiocpserver.cpp:70-73 | sets the flag to 1 and changes nothing else, so a second call changes nothing |
| IocpServer.Server.IsRunning | trunk/spserver/spiocpserver.cpp:75-78 | returns the running flag |
| IocpServer.Server.DispatchResults | trunk/spserver/spiocpserver.cpp:215-228 | both result queues end empty: every task went to the worker executor and every message, paired with the handler, to the act executor, oldest first and after what each executor already had |
| IocpServer.Server.ServeRound | trunk/spserver/spiocpserver.cpp:212-229 | one pass: the round's shutdown request sets the flag, and the round's tasks and messages are dispatched in order |
| IocpServer.Server.ServeRounds | trunk/spserver/spiocpserver.cpp:212-229 | no pass runs once the flag is set; otherwise exactly `RoundsRun` passes run, and the executors get every task and message of those passes, in order |
| IocpServer.Server.Start | trunk/spserver/spiocpserver.cpp:163-239 | the status `StartResult`; the calls `tcpListen` made; on failure no loop runs and the settings are untouched; on success the loop's passes and submissions as in `ServeRounds`; `sp_close` on the listening descriptor only when the loop ended because the flag was set |
| IocpServer.Server.EventLoop | trunk/spserver/spiocpserver.cpp:108-119 | the running flag is 1 while `start` runs; afterwards it is 0 when `start` failed or its loop ended on shutdown, and still 1 when the rounds ran out with the flag clear; the result is `start`'s |
| IocpServer.ConfigureEchoServer | trunk/spserver/testiocpecho.cpp:122-126 | the echo server's settings: port 3333, any address, timeout still 600 (the argument 0 is ignored), 4 threads, queue 10000 with the `Byebye` refusal, 10000 connections |
| StressClient.Close | spserver/testiocpstress.cpp:58-65 | the client is no longer live and keeps its counters; a client already closed is left as it is |
| StressClient.AfterRead | spserver/testiocpstress.cpp:67-86 | the receive counter grows by the newlines read and the send counter is kept; the descriptor goes to `closesocket` exactly when it was valid and the re-arm failed other than pending |
| StressClient.AfterWrite | spserver/testiocpstress.cpp:88-117 | at the cap nothing changes; below it one more message is counted, and the descriptor goes to `closesocket` exactly when it was valid and the submission failed other than pending; the receive counter is kept |
| StressClient.MailMessage | spserver/testiocpstress.cpp:95-97 | a mail starts with 'm' and ends with its newline |
| StressClient.SentMessage | spserver/testiocpstress.cpp:92-98 | the text is the `quit` line exactly when the count has reached `gMsgs` (both directions), and every text ends with a newline |
| StressClient.CloseIdempotent | spserver/testiocpstress.cpp:58-65 | closing twice is closing once: the client is no longer live, only the first close passes the descriptor to `closesocket`, and the counters are kept |
| StressClient.StepsBounded | spserver/testiocpstress.cpp:67-117 | reads and writes keep the send counter between 0 and `gMsgs`; at the cap a write changes nothing |
| StressClient.WritesCapped | spserver/testiocpstress.cpp:90-91 | n accepted writes from a fresh client leave the send counter at n, capped at `gMsgs` |
| StressClient.SentMessageFits | spserver/testiocpstress.cpp:92-103 | every message text, for any C `int` count, fits the 4096-byte buffer with its NUL and holds no NUL, so `strlen` gives its length |
| StressClient.TranscriptShape | spserver/testiocpstress.cpp:90-98 | the `gMsgs`-th message is `quit`; message k before it is "mail #k, ..."; none of those is `quit`, and no two are the same |
| StressClient.MailNumberInjective | spserver/testiocpstress.cpp:95-97 | distinct message numbers give distinct mail texts |
| StressClient.NewlineCountIsMultiplicity | spserver/testiocpstress.cpp:69-71 | the count of received messages in a chunk is the number of '\n' bytes in it |
| StressClient.NewlineCountAppend | spserver/testiocpstress.cpp:69-71 | counting two chunks separately gives the count of their concatenation |
| StressClient.LiveCountUpdate | spserver/testiocpstress.cpp:58-65 | changing one client changes the number of live clients by that client's change |
| StressClient.CloseLowersOnce | spserver/testiocpstress.cpp:58-65 | a close lowers the live count by one the first time and not again |
| StressClient.SumBounds | spserver/testiocpstress.cpp:268-274 | the reported send total is between 0 and `gMsgs` times the client count, and the receive total is non-negative |
| StressClient.NoneLiveNoneOpen | spserver/testiocpstress.cpp:247-279 | the descriptors open at report time are exactly as many as the live clients, so once all have exited the report closes nothing |
| StressClient.StartedFresh | spserver/testiocpstress.cpp:230-234 | when no first submission fails, each client is still open after the first loop, has one message out (none when `gMsgs` is not positive) and has received nothing |
| StressClient.StepsMove | spserver/testiocpstress.cpp:58-117 | closing, reading and writing each keep or invalidate the descriptor and keep the bounds |
| StressClient.LogsCompose | spserver/testiocpstress.cpp:58-65 | two steps close what the whole step closes, and the live count falls by what was closed |
| StressClient.AllLive | spserver/testiocpstress.cpp:202-228 | clients that have just connected are all live and within bounds |
| StressClient.WriteCString | spserver/testiocpstress.cpp:93-97 | the buffer holds the text, then a NUL; the bytes after it are unchanged |
| StressClient.StrLen | spserver/testiocpstress.cpp:103 | the length given is the index of the first NUL |
| StressClient.CountNewlines | spserver/testiocpstress.cpp:69-71 | the receive counter grows by the number of newlines among the first `bytesTransferred` bytes, and nothing else changes |
| StressClient.PrepareSend | spserver/testiocpstress.cpp:93-103 | the send event holds the text with its NUL, is marked as a send, and posts the text's length |
| StressClient.TestClient.constructor | spserver/testiocpstress.cpp:37-45 | the descriptor given, zero counters, and two distinct events with distinct 4096-byte buffers |
| StressClient.StressTest.constructor | spserver/testiocpstress.cpp:194-228 | the connected clients, all counted in `gClients`, and no descriptor closed yet |
| StressClient.StressTest.CloseClient | spserver/testiocpstress.cpp:58-65 | a valid descriptor is passed to `closesocket`, invalidated and `gClients` lowered by one; an invalid one changes nothing |
| StressClient.StressTest.OnRead | spserver/testiocpstress.cpp:67-86 | the receive counter grows by the newlines received; the event is re-armed as a receive over the whole buffer; the client is closed exactly when the submission failed other than pending |
| StressClient.StressTest.OnWrite | spserver/testiocpstress.cpp:88-117 | below `gMsgs`: one more message is counted, the buffer holds its text (`quit` at the cap), and a submission that failed other than pending closes the client; at the cap the client and the event are unchanged |
| StressClient.StressTest.EventLoop | spserver/testiocpstress.cpp:119-148 | a failed dequeue closes its client when the key is not null; an empty transfer closes the client; otherwise the event's kind picks `on_read` or `on_write`; `gClients` falls by what was closed; a receive re-arms its event over the whole buffer; a send below the cap leaves the next message in its buffer and posts its length, and at the cap, like an empty transfer, leaves the event unchanged |
| StressClient.StressTest.NewClients | spserver/testiocpstress.cpp:205-228 | one fresh, valid client per descriptor, no two the same, each with zero counters, and no two sharing an event or a buffer |
| StressClient.StressTest.Connect | spserver/testiocpstress.cpp:194-228 | the test after the connection loop: one client per descriptor, connected and idle, all counted in `gClients`, none closed, no two sharing an event or a buffer |
| StressClient.StressTest.Prime | spserver/testiocpstress.cpp:231-233 | `on_read` then `on_write`, both with no bytes, on one client: its state is the read step followed by the write step; its receive is armed over the whole buffer; below the cap its send event holds and posts the first message, at the cap it is unchanged; no other client is touched |
| StressClient.StressTest.StartClient | spserver/testiocpstress.cpp:230-234 | one turn of the first loop for client i: that client's state and events as in `Prime`, no other client touched, and the test's invariant kept |
| StressClient.StressTest.StartClients | spserver/testiocpstress.cpp:230-234 | every client's state is its `Started` state; the closed descriptors are logged in client order; every receive event is armed; every send event holds and posts the client's first message below the cap and is unchanged at the cap; the invariant holds |
| StressClient.StressTest.Turn | spserver/testiocpstress.cpp:247-249 | one `eventLoop` call keeps the invariant; `gClients` falls by exactly the descriptors closed |
| StressClient.StressTest.TurnOn | spserver/testiocpstress.cpp:248 | a turn whose completion is about one client of the list keeps the invariant, and `gClients` falls by exactly the descriptors closed |
| StressClient.StressTest.RunUntilAllExit | spserver/testiocpstress.cpp:246-254 | the loop stops with no clients left unless the completions ran out; it runs nothing when none is connected; `gClients` falls by exactly the descriptors closed |
| StressClient.StressTest.Report | spserver/testiocpstress.cpp:266-279 | the totals are the sums of the per-client counters, within the bounds; every descriptor still open is closed, and none once all clients have exited |
| StressClient.StressTest.Run | spserver/testiocpstress.cpp:230-279 | the first loop, the event loop and the report together: the invariant; no clients left unless the completions ran out; the totals are the sums of the counters, within the bounds |
| StressClient.Tally | spserver/testiocpstress.cpp:267-279 | the loop's totals are the sums of the send and receive counters, and the descriptors it closes are the open ones, in client order |

`IOUtils.ListenCallsStages` states which calls `tcpListen` makes:

- The socket is always opened.
- The non-blocking step needs a socket and `blocking == 0`.
- Both socket options are tried once the mode step succeeded. So `TCP_NODELAY` is still tried after `SO_REUSEADDR` failed.
- The address conversion needs an ip whose first character is not the terminator (`'\0' != *ip`).
- `bind` needs every earlier step to succeed, and `listen` needs `bind` to succeed.
- The socket is closed exactly when the call failed after creating it.

## Left out

- Threads are not modelled:
  - `run()`, which creates the thread for the event loop (`trunk/spserver/spiocpserver.cpp:80-101`);
  - the accept thread (`trunk/spserver/spiocpserver.cpp:137-161`);
  - the executors' threads, since an executor here only records what it was given, in order;
  - `runForever`, which only calls `eventLoop`.
- Code that is not part of this model is not modelled:
  - `SP_IocpEventCallback::eventLoop`;
  - `SP_MultiLineMsgDecoder` and `SP_CircleQueue`. A request's decoder is modelled as the sequence of lines it has queued.
  - the completion handler's own behaviour.

  One wait of the callback is modelled as a `Round`: the tasks and messages it queued, and whether `shutdown()` was called during it.
- Admission control is not modelled. `mMaxConnections`, `mReqQueueSize` and `mRefusedMsg` are stored and passed on (`trunk/spserver/spiocpserver.cpp:183-186`), and are enforced in code that is not part of this model.
- Memory management is not modelled:
  - `strdup`/`free` of the refusal message;
  - `free( arg )` in `outputCompleted`;
  - `free( line )` in `handle`;
  - `delete` of the handler factory and the completion handler;
  - `calloc`/`free` of the client list;
  - CRT leak checks.
- The constructor copies `bindIP` with `snprintf` into a fixed-size array. IocpServer.Server.constructor keeps the whole string, because that array's size is declared in a header that is not part of this model.
- These calls are not modelled:
  - `signal( SIGPIPE, SIG_IGN )`;
  - `sp_syslog` and `printf`;
  - `WSAStartup`;
  - the creation of the client's completion port;
  - `loadDisconnectEx`;
  - `CreateEvent`;
  - `IncreaseConnections` (OS tuning);
  - `getopt` parsing and `showUsage`.
- Time is not modelled: the timing and throughput figures of the stress client use floating point and the wall clock.
- The Windows branches of `inetNtoa` (`s_net`/`s_host` fields) and of `setNonblock`/`setBlock` (`ioctlsocket`) are not modelled. The model follows the POSIX branches, with `O_NONBLOCK` as Linux defines it.
- `sp_inet_aton` is an input: the address it produced, or none. `IOUtils.ParseDottedQuad` is the canonical dotted-decimal reader that the formatter is proved against; it accepts fewer spellings than `inet_aton`.
- The connection loop of the stress client (`spserver/testiocpstress.cpp:205-228`) is modelled only on its success path: `StressClient.StressTest.Connect` takes the descriptors `socket` and `connect` returned. The failures of `socket`, `connect` and the completion-port registration, each of which ends `main` early, are not modelled. Neither is the source's test `client->mFd < 0` on the unsigned `SOCKET`.
- The kernel's filling of a receive buffer between `WSARecv` and its completion is not modelled. A completion is handed over with the buffer as it stands.
- Unbounded loops are modelled over finite sequences:
  - `while( 0 == mIsShutdown )` in `start` over a finite sequence of rounds. When the rounds run out with the flag clear, the model's loop stops there: `start` returns without `sp_close`, and `eventLoop` leaves the running flag at 1;
  - `while( gClients > 0 )` in the stress client over a finite sequence of completions.
- StressClient.StressTest.RunUntilAllExit: states the whole-test invariant, the count/closed-descriptor relation and the stopping condition, but not each client's final state. That state depends on the completions, and the per-step contract of `StressClient.StressTest.EventLoop` gives it.
- StressClient.StressTest.Turn: states the invariant and the `gClients` relation; the client-level effect is the contract of `StressClient.StressTest.EventLoop`.
- StressClient.StressTest.TurnOn: the same as `Turn`, for a completion about a client.
- StressClient.Tally: C `int` totals can overflow for very large client counts; the model's sums are unbounded integers. The per-client counters are bounded by `gMsgs` (sends) and left unbounded (receives).
- The listening descriptor is never closed when `start()` returns early because registration or the accept thread failed (`trunk/spserver/spiocpserver.cpp:192-205`). The model follows the code: `closed` is `None` on those paths.
- `SP_EchoHandler::close` has nothing to state: it does nothing and touches no state, so `EchoHandler.Handler.Close` carries no contract.
