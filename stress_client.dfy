/** The IOCP stress client (spserver/testiocpstress.cpp): `gClients` connected clients, each
    with a receive and a send event. Every client sends `gMsgs` messages, the last of them
    `quit`, and counts the lines it receives back. Completion results and the outcome of
    each `WSARecv`/`WSASend` submission are inputs chosen by the caller. */
module StressClient {
  import opened Wrappers
  import opened Format

  /** `sizeof( SP_TestEvent::mBuffer )`. */
  const BufferSize: int := 4096

  /** `INVALID_HANDLE_VALUE` as a socket. */
  const InvalidSocket: int := -1

  /** `ERROR_IO_PENDING`: an overlapped submission was queued and will complete later. */
  const ErrorIoPending: int := 997

  datatype EventType = Recv | Send    // eEventRecv (0), eEventSend (1)

  /** What `WSARecv`/`WSASend` report: success, or `SOCKET_ERROR` with the error code. */
  datatype SubmitResult = Submitted | SocketError(lastError: int)

  /** A failed submission closes the client unless it is merely pending. */
  predicate ClosesClient(r: SubmitResult) {
    r.SocketError? && r.lastError != ErrorIoPending
  }

  /** The per-client counters and descriptor, as a value. */
  datatype ClientState = ClientState(fd: int, sendMsgs: int, recvMsgs: int)

  /** One live client contributes one to `gClients`. */
  function Live(s: ClientState): nat {
    if s.fd != InvalidSocket then 1 else 0
  }

  /** `close_client`: a valid descriptor is closed and marked invalid; an invalid one is left. */
  function Close(s: ClientState): (c: ClientState)
    ensures Live(c) == 0 && c.sendMsgs == s.sendMsgs && c.recvMsgs == s.recvMsgs
    ensures s.fd == InvalidSocket ==> c == s
  {
    if s.fd != InvalidSocket then s.(fd := InvalidSocket) else s
  }

  /** The descriptors `closesocket` got while a client went from `before` to `after`. */
  function CloseLog(before: ClientState, after: ClientState): seq<int> {
    if before.fd != InvalidSocket && after.fd == InvalidSocket then [before.fd] else []
  }

  /** `on_read`: the receive count grows by the newlines read, and a failed re-arm closes. */
  function AfterRead(s: ClientState, newlines: nat, submit: SubmitResult): (r: ClientState)
    ensures r.recvMsgs == s.recvMsgs + newlines && r.sendMsgs == s.sendMsgs
    ensures CloseLog(s, r) == (if ClosesClient(submit) && s.fd != InvalidSocket then [s.fd] else [])
    ensures r.fd == s.fd || r.fd == InvalidSocket
  {
    var s1 := s.(recvMsgs := s.recvMsgs + newlines);
    if ClosesClient(submit) then Close(s1) else s1
  }

  /** `on_write`: below the cap one more message is counted and submitted, and a failed
      submission closes; at the cap nothing changes. */
  function AfterWrite(s: ClientState, msgs: int, submit: SubmitResult): (r: ClientState)
    ensures s.sendMsgs >= msgs ==> r == s
    ensures s.sendMsgs < msgs ==> r.sendMsgs == s.sendMsgs + 1
    ensures r.recvMsgs == s.recvMsgs
    ensures CloseLog(s, r) ==
      (if s.sendMsgs < msgs && ClosesClient(submit) && s.fd != InvalidSocket then [s.fd] else [])
    ensures r.fd == s.fd || r.fd == InvalidSocket
  {
    if s.sendMsgs < msgs then
      var s1 := s.(sendMsgs := s.sendMsgs + 1);
      if ClosesClient(submit) then Close(s1) else s1
    else s
  }

  /** Closing twice is closing once: the second call changes nothing and lowers the live
      count no further. */
  lemma CloseIdempotent(s: ClientState)
    ensures Close(Close(s)) == Close(s)
    ensures Live(Close(s)) == 0
    ensures CloseLog(Close(s), Close(Close(s))) == []
    ensures CloseLog(s, Close(s)) == (if s.fd != InvalidSocket then [s.fd] else [])
    ensures Close(s).sendMsgs == s.sendMsgs && Close(s).recvMsgs == s.recvMsgs
  {
  }

  /** The most messages a client sends: `gMsgs`, or none when it is not positive. */
  function Cap(msgs: int): nat {
    if msgs > 0 then msgs else 0
  }

  predicate Bounded(s: ClientState, msgs: int) {
    0 <= s.sendMsgs <= Cap(msgs) && s.recvMsgs >= 0
  }

  /** Reads and writes keep the send counter within the cap, and at the cap a write is a no-op. */
  lemma StepsBounded(s: ClientState, msgs: int, newlines: nat, submit: SubmitResult)
    requires Bounded(s, msgs)
    ensures Bounded(AfterRead(s, newlines, submit), msgs)
    ensures Bounded(AfterWrite(s, msgs, submit), msgs)
    ensures s.sendMsgs >= msgs ==> AfterWrite(s, msgs, submit) == s
  {
  }

  /** The state after `n` completed writes, none of whose submissions failed. */
  function Writes(s: ClientState, msgs: int, n: nat): ClientState {
    if n == 0 then s else AfterWrite(Writes(s, msgs, n - 1), msgs, Submitted)
  }

  /** From a fresh client, `n` writes leave the send counter at `n`, capped at `gMsgs`. */
  lemma {:induction false} WritesCapped(s: ClientState, msgs: int, n: nat)
    requires s.sendMsgs == 0
    ensures Writes(s, msgs, n).sendMsgs == if n < Cap(msgs) then n else Cap(msgs)
    ensures Writes(s, msgs, n).fd == s.fd && Writes(s, msgs, n).recvMsgs == s.recvMsgs
  {
    if n > 0 {
      WritesCapped(s, msgs, n - 1);
    }
  }

  // ---- Message text

  const MailHead: string := "mail #"
  /** The text after the message number, up to and including the newline. */
  const MailTail: string :=
    ", It's good to see how people hire; " + "that tells us how to market " + "ourselves to them.\n"

  /** `"mail #%d, ..."` for message number k. */
  function MailMessage(k: int): (text: string)
    ensures |text| > 0 && text[0] == 'm' && text[|text| - 1] == '\n'
  {
    MailHead + FormatInt(k) + MailTail
  }

  /** The text of the k-th message (k counted after the increment): `quit` once k reaches
      `gMsgs`. */
  function SentMessage(k: int, msgs: int): (text: string)
    ensures text == "quit\n" <==> k >= msgs
    ensures |text| > 0 && text[|text| - 1] == '\n'
  {
    if k >= msgs then "quit\n" else MailNotQuit(k); MailMessage(k)
  }

  predicate NoNul(s: string) {
    '\0' !in s
  }

  lemma MailTailNoNul()
    ensures NoNul(MailTail)
  {
  }

  /** Every message of a C `int` number fits the 4096-byte buffer with its terminator, and
      holds no NUL, so `strlen` gives its length. */
  lemma SentMessageFits(k: int32, msgs: int)
    ensures |SentMessage(k, msgs)| < BufferSize && NoNul(SentMessage(k, msgs))
  {
    if k < msgs {
      assert Pow10(10) == 10_000_000_000;
      var d: nat := if k < 0 then -(k as int) else k as int;
      DecimalDigitsLength(d, 10);
      var digits := DecimalDigits(d);
      MailTailNoNul();
    }
  }

  /** The messages a client sends, in order, when every write completes: message i + 1 is
      the (i + 1)-th. */
  function Transcript(msgs: nat): seq<string> {
    seq(msgs, i => SentMessage(i + 1, msgs))
  }

  /** The last message is `quit`, every earlier one is a numbered mail, and no two of the
      earlier ones are the same. */
  lemma TranscriptShape(msgs: nat)
    requires msgs >= 1
    ensures Transcript(msgs)[msgs - 1] == "quit\n"
    ensures forall i :: 0 <= i < msgs - 1 ==> Transcript(msgs)[i] == MailMessage(i + 1)
    ensures forall i :: 0 <= i < msgs - 1 ==> Transcript(msgs)[i] != "quit\n"
    ensures forall i, j :: 0 <= i < j < msgs - 1 ==> Transcript(msgs)[i] != Transcript(msgs)[j]
  {
    var t := Transcript(msgs);
    forall i, j | 0 <= i < j < msgs - 1
      ensures t[i] != t[j]
    {
      TranscriptDistinct(msgs, i, j);
    }
    forall i | 0 <= i < msgs - 1
      ensures t[i] == MailMessage(i + 1) && t[i] != "quit\n"
    {
      TranscriptAt(msgs, i);
    }
  }

  /** Message i of the transcript, before the last, is mail number i + 1. */
  lemma TranscriptAt(msgs: nat, i: nat)
    requires i < msgs - 1
    ensures Transcript(msgs)[i] == MailMessage(i + 1) && Transcript(msgs)[i] != "quit\n"
  {
  }

  /** Two messages of the transcript before the last are different. */
  lemma TranscriptDistinct(msgs: nat, i: nat, j: nat)
    requires i < j < msgs - 1
    ensures Transcript(msgs)[i] != Transcript(msgs)[j]
  {
    TranscriptAt(msgs, i);
    TranscriptAt(msgs, j);
    MailsDistinct(i + 1, j + 1);
  }

  /** Mails of different numbers differ. */
  lemma MailsDistinct(m: nat, n: nat)
    requires m != n
    ensures MailMessage(m) != MailMessage(n)
  {
    if MailMessage(m) == MailMessage(n) {
      MailNumberInjective(m, n);
    }
  }

  /** A mail starts with 'm', so it is never the `quit` line. */
  lemma MailNotQuit(k: int)
    ensures MailMessage(k) != "quit\n"
  {
    assert MailMessage(k)[0] == 'm';
  }

  /** Text around two parts that is the same on both sides can be taken away. */
  lemma CancelAround(p: string, a: string, b: string, q: string)
    requires p + a + q == p + b + q
    ensures a == b
  {
    assert |a| == |b|;
    assert a == (p + a + q)[|p|..|p| + |a|];
    assert b == (p + b + q)[|p|..|p| + |b|];
  }

  /** Distinct positive numbers give distinct mail texts. */
  lemma MailNumberInjective(m: nat, n: nat)
    requires MailMessage(m) == MailMessage(n)
    ensures m == n
  {
    CancelAround(MailHead, FormatInt(m), FormatInt(n), MailTail);
    DecimalDigitsInjective(m, n);
  }

  // ---- Received lines

  /** The number of '\n' bytes in a chunk. */
  function NewlineCount(s: seq<char>): nat {
    if s == [] then 0 else NewlineCount(s[..|s| - 1]) + (if s[|s| - 1] == '\n' then 1 else 0)
  }

  /** The newline count is the multiplicity of '\n' in the chunk. */
  lemma {:induction false} NewlineCountIsMultiplicity(s: seq<char>)
    ensures NewlineCount(s) == multiset(s)['\n']
  {
    if s != [] {
      var init := s[..|s| - 1];
      NewlineCountIsMultiplicity(init);
      assert s == init + [s[|s| - 1]];
      assert multiset(s) == multiset(init) + multiset{s[|s| - 1]};
    }
  }

  /** Counting two chunks is counting their concatenation. */
  lemma {:induction false} NewlineCountAppend(a: seq<char>, b: seq<char>)
    ensures NewlineCount(a + b) == NewlineCount(a) + NewlineCount(b)
  {
    NewlineCountIsMultiplicity(a);
    NewlineCountIsMultiplicity(b);
    NewlineCountIsMultiplicity(a + b);
  }

  // ---- Counts over all clients

  function LiveCount(st: seq<ClientState>): nat {
    if st == [] then 0 else LiveCount(st[..|st| - 1]) + Live(st[|st| - 1])
  }

  /** Replacing one client's state changes the live count by the change in that client. */
  lemma {:induction false} LiveCountUpdate(st: seq<ClientState>, k: nat, s: ClientState)
    requires k < |st|
    ensures LiveCount(st[k := s]) == LiveCount(st) - Live(st[k]) + Live(s)
  {
    var n := |st|;
    var u := st[k := s];
    if k == n - 1 {
      assert u[..n - 1] == st[..n - 1];
    } else {
      assert u[..n - 1] == st[..n - 1][k := s];
      LiveCountUpdate(st[..n - 1], k, s);
    }
  }

  /** A closed client lowers the live count by exactly one the first time, and not again. */
  lemma CloseLowersOnce(st: seq<ClientState>, k: nat)
    requires k < |st|
    ensures LiveCount(st[k := Close(st[k])]) == LiveCount(st) - Live(st[k])
    ensures LiveCount(st[k := Close(st[k])][k := Close(Close(st[k]))]) == LiveCount(st[k := Close(st[k])])
  {
    LiveCountUpdate(st, k, Close(st[k]));
    CloseIdempotent(st[k]);
    assert st[k := Close(st[k])][k := Close(Close(st[k]))] == st[k := Close(st[k])];
  }

  predicate AllBounded(st: seq<ClientState>, msgs: int) {
    forall i :: 0 <= i < |st| ==> Bounded(st[i], msgs)
  }

  function SumSend(st: seq<ClientState>): int {
    if st == [] then 0 else SumSend(st[..|st| - 1]) + st[|st| - 1].sendMsgs
  }

  function SumRecv(st: seq<ClientState>): int {
    if st == [] then 0 else SumRecv(st[..|st| - 1]) + st[|st| - 1].recvMsgs
  }

  /** The descriptors still open, in client order. */
  function OpenFds(st: seq<ClientState>): seq<int> {
    if st == [] then [] else OpenFds(st[..|st| - 1]) + (if Live(st[|st| - 1]) == 1 then [st[|st| - 1].fd] else [])
  }

  /** The reported totals: at most `gMsgs` sent per client, and none received negative. */
  lemma {:induction false} SumBounds(st: seq<ClientState>, msgs: int)
    requires AllBounded(st, msgs)
    ensures 0 <= SumSend(st) <= |st| * Cap(msgs)
    ensures SumRecv(st) >= 0
  {
    if st != [] {
      var init := st[..|st| - 1];
      assert AllBounded(init, msgs) by {
        forall i | 0 <= i < |init| ensures Bounded(init[i], msgs) { assert init[i] == st[i]; }
      }
      SumBounds(init, msgs);
      assert Bounded(st[|st| - 1], msgs);
    }
  }

  /** The totals and the open descriptors over one more client. */
  lemma ReportStep(st: seq<ClientState>, i: nat)
    requires i < |st|
    ensures SumSend(st[..i + 1]) == SumSend(st[..i]) + st[i].sendMsgs
    ensures SumRecv(st[..i + 1]) == SumRecv(st[..i]) + st[i].recvMsgs
    ensures OpenFds(st[..i + 1]) == OpenFds(st[..i]) + (if Live(st[i]) == 1 then [st[i].fd] else [])
  {
    assert st[..i + 1][..i] == st[..i];
  }

  /** Once every client has exited, none is left open: the report closes nothing. */
  lemma {:induction false} NoneLiveNoneOpen(st: seq<ClientState>)
    ensures |OpenFds(st)| == LiveCount(st)
  {
    if st != [] {
      NoneLiveNoneOpen(st[..|st| - 1]);
    }
  }

  // ---- Objects

  /** An `SP_TestEvent`: its kind, the length posted in `mWsaBuf`, and its buffer. */
  class TestEvent {
    var eventType: EventType
    var wsaLen: int
    const buffer: array<char>

    /** As `calloc` leaves it: a receive event over a zeroed buffer. */
    constructor ()
      ensures eventType == Recv && wsaLen == 0
      ensures fresh(buffer) && buffer.Length == BufferSize
    {
      eventType := Recv;
      wsaLen := 0;
      buffer := new char[BufferSize](_ => '\0');
    }
  }

  /** An `SP_TestClient`. */
  class TestClient {
    var fd: int
    const recvEvent: TestEvent
    const sendEvent: TestEvent
    var sendMsgs: int
    var recvMsgs: int

    constructor (fd: int)
      ensures State() == ClientState(fd, 0, 0) && Valid()
      ensures fresh(recvEvent) && fresh(sendEvent) && fresh(recvEvent.buffer) && fresh(sendEvent.buffer)
    {
      this.fd := fd;
      recvEvent := new TestEvent();
      sendEvent := new TestEvent();
      sendMsgs := 0;
      recvMsgs := 0;
    }

    function State(): ClientState
      reads this
    {
      ClientState(fd, sendMsgs, recvMsgs)
    }

    /** The two events are distinct and each has the full-size buffer. */
    predicate Valid() {
      recvEvent != sendEvent && recvEvent.buffer != sendEvent.buffer
      && recvEvent.buffer.Length == BufferSize && sendEvent.buffer.Length == BufferSize
    }

    predicate Owns(event: TestEvent) {
      event == recvEvent || event == sendEvent
    }
  }

  /** A client, its two events and their buffers. */
  function Footprint(c: TestClient): set<object> {
    {c, c.recvEvent, c.sendEvent, c.recvEvent.buffer, c.sendEvent.buffer}
  }

  /** The footprints of a list of clients, together. */
  function Footprints(cs: seq<TestClient>): (r: set<object>)
    ensures forall i :: 0 <= i < |cs| ==> Footprint(cs[i]) <= r
  {
    if cs == [] then {} else Footprints(cs[..|cs| - 1]) + Footprint(cs[|cs| - 1])
  }

  /** Two clients share no event and no buffer. */
  predicate Apart(c: TestClient, d: TestClient) {
    c.recvEvent != d.recvEvent && c.recvEvent != d.sendEvent
    && c.sendEvent != d.recvEvent && c.sendEvent != d.sendEvent
    && c.recvEvent.buffer != d.recvEvent.buffer && c.recvEvent.buffer != d.sendEvent.buffer
    && c.sendEvent.buffer != d.recvEvent.buffer && c.sendEvent.buffer != d.sendEvent.buffer
  }

  /** Client i of a list shares no event and no buffer with any other client of it. */
  predicate ApartFromOthers(cs: seq<TestClient>, i: nat)
    requires i < |cs|
  {
    forall j :: 0 <= j < |cs| && j != i ==> Apart(cs[j], cs[i])
  }

  /** No two clients of a list share an event or a buffer, as when each `SP_TestClient` of
      the `calloc`ed array embeds its own two events. */
  predicate FootprintsDisjoint(cs: seq<TestClient>) {
    forall i :: 0 <= i < |cs| ==> ApartFromOthers(cs, i)
  }

  /** The event of a completion holds a C string `m` as the text to send: `m`, its NUL,
      and the posted length `strlen( m )`. */
  predicate Holds(event: TestEvent, m: string)
    reads event, event.buffer
  {
    |m| < event.buffer.Length && event.buffer[..|m|] == m && event.buffer[|m|] == '\0'
    && event.wsaLen == |m|
  }

  /** A receive event as `on_read` re-arms it: a receive over the whole buffer. */
  predicate Armed(event: TestEvent)
    reads event
  {
    event.eventType == Recv && event.wsaLen == event.buffer.Length
  }

  /** A send event as `on_write` leaves it: a send of the C string `m`. */
  predicate Sending(event: TestEvent, m: string)
    reads event, event.buffer
  {
    event.eventType == Send && Holds(event, m)
  }

  /** The event's kind, posted length and buffer contents are as they were. */
  twostate predicate Kept(event: TestEvent)
    reads event, event.buffer
  {
    event.eventType == old(event.eventType) && event.wsaLen == old(event.wsaLen)
    && event.buffer[..] == old(event.buffer[..])
  }

  /** What `Kept` compares: an event's kind, posted length and buffer contents. */
  datatype EventView = EventView(eventType: EventType, wsaLen: int, bytes: seq<char>)

  function View(event: TestEvent): EventView
    reads event, event.buffer
  {
    EventView(event.eventType, event.wsaLen, event.buffer[..])
  }

  /** `snprintf( buf, sizeof(buf), "%s", text )` for a text that fits: the text, then NUL. */
  method WriteCString(buf: array<char>, text: string)
    requires |text| < buf.Length
    modifies buf
    ensures buf[..|text|] == text && buf[|text|] == '\0'
    ensures buf[|text| + 1..] == old(buf[|text| + 1..])
  {
    var i := 0;
    while i < |text|
      invariant 0 <= i <= |text|
      invariant buf[..i] == text[..i]
      invariant buf[|text|..] == old(buf[|text|..])
    {
      buf[i] := text[i];
      i := i + 1;
    }
    buf[|text|] := '\0';
  }

  /** `strlen`: the index of the first NUL. */
  method StrLen(buf: array<char>) returns (n: int)
    requires exists i :: 0 <= i < buf.Length && buf[i] == '\0'
    ensures 0 <= n < buf.Length && buf[n] == '\0'
    ensures forall i :: 0 <= i < n ==> buf[i] != '\0'
  {
    n := 0;
    while buf[n] != '\0'
      invariant 0 <= n < buf.Length
      invariant forall i :: 0 <= i < n ==> buf[i] != '\0'
      invariant exists i :: n <= i < buf.Length && buf[i] == '\0'
      decreases buf.Length - n
    {
      n := n + 1;
    }
  }

  /** The counting loop of `on_read`: one more received message per '\n' among the first
      `bytes` bytes of the buffer. */
  method CountNewlines(client: TestClient, buffer: array<char>, bytes: int)
    requires 0 <= bytes <= buffer.Length
    modifies client
    ensures client.State() == old(client.State()).(recvMsgs := old(client.recvMsgs) + NewlineCount(buffer[..bytes]))
  {
    var i := 0;
    while i < bytes
      invariant 0 <= i <= bytes
      invariant client.State() == old(client.State()).(recvMsgs := old(client.recvMsgs) + NewlineCount(buffer[..i]))
    {
      if buffer[i] == '\n' {
        client.recvMsgs := client.recvMsgs + 1;
      }
      assert buffer[..i + 1][..i] == buffer[..i];
      i := i + 1;
    }
  }

  /** The buffer set-up of `on_write`: `snprintf` of the text into the buffer, the event
      marked as a send, and `strlen` of the buffer as the length to send. */
  method PrepareSend(event: TestEvent, text: string)
    requires |text| < event.buffer.Length && NoNul(text)
    modifies event, event.buffer
    ensures event.eventType == Send && Holds(event, text)
    ensures event.buffer[|text| + 1..] == old(event.buffer[|text| + 1..])
  {
    var written := Snprintf(text, event.buffer.Length).value;
    WriteCString(event.buffer, written);
    event.eventType := Send;
    event.wsaLen := StrLen(event.buffer);
    assert event.buffer[..|text|] == text;
  }

  /** What `GetQueuedCompletionStatus` hands back: a failure, with the completion key when one
      was dequeued (`NULL` otherwise), or a completed transfer on a client's event. */
  datatype Completion =
    | DequeueFailed(key: TestClient?)
    | Dequeued(bytes: nat, client: TestClient, event: TestEvent)

  /** One turn of the main loop: the completion and the outcome of the submission it leads to. */
  datatype Step = Step(completion: Completion, submit: SubmitResult)

  /** The globals of the test: `gMsgs`, `gClients`, the client list, and the descriptors
      passed to `closesocket` so far. */
  class StressTest {
    const msgs: int32
    var clients: int
    const clientList: seq<TestClient>
    var closedSockets: seq<int>

    /** The clients of the list, as a set: the footprint of the per-client state. */
    ghost const clientSet: set<TestClient>

    /** The clients, their events and the events' buffers: what the test may change
        besides its globals. */
    ghost const objects: set<object>

    /** The fixed shape of the list: distinct well-formed clients, all in `clientSet`,
        whose objects are all in `objects`. */
    ghost predicate Linked() {
      (forall i :: 0 <= i < |clientList| ==> clientList[i] in clientSet && clientList[i].Valid())
      && (forall i :: 0 <= i < |clientList| ==> InObjects(clientList[i]))
      && (forall i, j :: 0 <= i < j < |clientList| ==> clientList[i] != clientList[j])
    }

    /** A client, its events and their buffers are all in `objects`. */
    ghost predicate InObjects(c: TestClient) {
      c in objects && c.recvEvent in objects && c.sendEvent in objects
      && c.recvEvent.buffer in objects && c.sendEvent.buffer in objects
    }

    /** The views of the send events of the first n clients of the list, in order. */
    ghost function SendViewsUpTo(n: nat): (vs: seq<EventView>)
      requires Linked() && n <= |clientList|
      reads objects
      ensures |vs| == n
      ensures forall i :: 0 <= i < n ==> vs[i] == View(clientList[i].sendEvent)
    {
      if n == 0 then [] else SendViewsUpTo(n - 1) + [View(clientList[n - 1].sendEvent)]
    }

    /** The states of the first n clients of the list, in order. */
    ghost function StatesUpTo(n: nat): (st: seq<ClientState>)
      requires Linked() && n <= |clientList|
      reads clientSet
      ensures |st| == n
      ensures forall i :: 0 <= i < n ==> st[i] == clientList[i].State()
    {
      if n == 0 then [] else StatesUpTo(n - 1) + [clientList[n - 1].State()]
    }

    ghost function States(): (st: seq<ClientState>)
      requires Linked()
      reads clientSet
      ensures |st| == |clientList|
      ensures forall i :: 0 <= i < |clientList| ==> st[i] == clientList[i].State()
    {
      StatesUpTo(|clientList|)
    }

    /** The list holds distinct well-formed clients, `gClients` counts the live ones, and
        no client has sent more than `gMsgs` messages. */
    ghost predicate Valid()
      reads this, clientSet
    {
      Linked() && clients == LiveCount(States()) && AllBounded(States(), msgs)
    }

    /** The clients after the setup loop: all connected, none counted yet. */
    constructor (msgs: int32, clientList: seq<TestClient>)
      requires forall i, j :: 0 <= i < j < |clientList| ==> clientList[i] != clientList[j]
      requires forall i :: 0 <= i < |clientList| ==> clientList[i].Valid()
      requires forall i :: 0 <= i < |clientList| ==>
                 clientList[i].State() == ClientState(clientList[i].fd, 0, 0)
                 && clientList[i].fd != InvalidSocket
      ensures this.msgs == msgs && this.clientList == clientList
      ensures clients == |clientList| && closedSockets == [] && Valid()
    {
      this.msgs := msgs;
      this.clientList := clientList;
      clientSet := set c | c in clientList;
      objects := Footprints(clientList);
      clients := |clientList|;
      closedSockets := [];
      new;
      LinkedAtStart();
      AllLive(States(), msgs);
    }

    /** The list as the constructor sets it up has the fixed shape `Linked` asks for. */
    lemma LinkedAtStart()
      requires clientSet == (set c | c in clientList) && objects == Footprints(clientList)
      requires forall i, j :: 0 <= i < j < |clientList| ==> clientList[i] != clientList[j]
      requires forall i :: 0 <= i < |clientList| ==> clientList[i].Valid()
      ensures Linked()
    {
      forall i | 0 <= i < |clientList| ensures InObjects(clientList[i]) {
        assert Footprint(clientList[i]) <= objects;
      }
    }

    /** The connection loop of `main` with the descriptors `socket` and `connect` gave:
        a fresh client per descriptor, connected and idle, each with its own events. */
    static method NewClients(fds: seq<int>) returns (cs: seq<TestClient>)
      ensures |cs| == |fds|
      ensures forall i, j :: 0 <= i < j < |cs| ==> cs[i] != cs[j]
      ensures forall i :: 0 <= i < |cs| ==>
                (fresh(cs[i]) && cs[i].Valid() && cs[i].State() == ClientState(fds[i], 0, 0))
      ensures FootprintsDisjoint(cs)
    {
      cs := [];
      var i := 0;
      while i < |fds|
        invariant 0 <= i <= |fds| && |cs| == i
        invariant forall a, b :: 0 <= a < b < |cs| ==> cs[a] != cs[b]
        invariant forall a :: 0 <= a < |cs| ==>
                    (fresh(cs[a]) && cs[a].Valid() && cs[a].State() == ClientState(fds[a], 0, 0))
        invariant FootprintsDisjoint(cs)
      {
        var c := new TestClient(fds[i]);
        forall a | 0 <= a < |cs|
          ensures Apart(cs[a], c) && Apart(c, cs[a])
        {
        }
        ghost var before := cs;
        cs := cs + [c];
        forall k | 0 <= k < |cs|
          ensures ApartFromOthers(cs, k)
        {
          if k < |before| {
            assert ApartFromOthers(before, k);
          }
        }
        i := i + 1;
      }
    }

    /** `main` up to the first loop: the clients connected on the given descriptors, all
        counted in `gClients`, none closed, no two sharing an event or a buffer. */
    static method Connect(msgs: int32, fds: seq<int>) returns (t: StressTest)
      requires forall i :: 0 <= i < |fds| ==> fds[i] != InvalidSocket
      ensures fresh(t) && t.msgs == msgs && |t.clientList| == |fds| && t.Valid()
      ensures t.States() == seq(|fds|, i requires 0 <= i < |fds| => ClientState(fds[i], 0, 0))
      ensures t.clients == |fds| && t.closedSockets == []
      ensures FootprintsDisjoint(t.clientList)
    {
      var cs := NewClients(fds);
      t := new StressTest(msgs, cs);
    }

    /** `close_client`: closes and invalidates a valid descriptor and lowers `gClients` by
        one; on an invalid descriptor it does nothing, so a second call changes nothing. */
    method CloseClient(client: TestClient)
      modifies this, client
      ensures client.State() == Close(old(client.State()))
      ensures closedSockets == old(closedSockets) + CloseLog(old(client.State()), client.State())
      ensures clients == old(clients) - |CloseLog(old(client.State()), client.State())|
    {
      if client.fd != InvalidSocket {
        closedSockets := closedSockets + [client.fd];
        client.fd := InvalidSocket;
        clients := clients - 1;
      }
    }

    /** `on_read`: counts the newlines among the bytes received, re-arms the event as a
        receive over the whole buffer, and closes the client if that submission failed. */
    method OnRead(client: TestClient, event: TestEvent, bytes: int, submit: SubmitResult)
      requires 0 <= bytes <= event.buffer.Length
      modifies this, client, event
      ensures client.State() == AfterRead(old(client.State()), NewlineCount(event.buffer[..bytes]), submit)
      ensures Armed(event)
      ensures closedSockets == old(closedSockets) + CloseLog(old(client.State()), client.State())
      ensures clients == old(clients) - |CloseLog(old(client.State()), client.State())|
    {
      CountNewlines(client, event.buffer, bytes);
      event.eventType := Recv;
      event.wsaLen := event.buffer.Length;
      if submit.SocketError? {
        if submit.lastError != ErrorIoPending {
          CloseClient(client);
        }
      }
    }

    /** `on_write`: below `gMsgs`, counts one more message, writes its text into the send
        buffer with the length to send, and closes the client if the submission failed;
        once `gMsgs` messages are counted it changes nothing. */
    method OnWrite(client: TestClient, event: TestEvent, bytes: int, submit: SubmitResult)
      requires client.sendMsgs >= 0 && event.buffer.Length == BufferSize
      modifies this, client, event, event.buffer
      ensures client.State() == AfterWrite(old(client.State()), msgs, submit)
      ensures closedSockets == old(closedSockets) + CloseLog(old(client.State()), client.State())
      ensures clients == old(clients) - |CloseLog(old(client.State()), client.State())|
      ensures old(client.sendMsgs) < msgs ==> Sending(event, SentMessage(client.sendMsgs, msgs))
      ensures old(client.sendMsgs) >= msgs ==> Kept(event)
    {
      if client.sendMsgs < msgs {
        client.sendMsgs := client.sendMsgs + 1;
        var text := if client.sendMsgs >= msgs then "quit\n" else MailMessage(client.sendMsgs);
        SentMessageFits(client.sendMsgs, msgs);
        PrepareSend(event, text);
        if submit.SocketError? {
          if submit.lastError != ErrorIoPending {
            CloseClient(client);
          }
        }
      }
    }

    /** The completions `eventLoop` can be handed for this test: a key or a client from the
        list, one of that client's own events, and no more bytes than its buffer holds. */
    ghost predicate WellFormed(c: Completion) {
      match c
      case DequeueFailed(key) => key == null || key in clientList
      case Dequeued(bytes, client, event) =>
        client in clientList && client.Valid() && client.Owns(event) && bytes <= BufferSize
    }

    /** The client a completion is about, if any. */
    function Subject(c: Completion): TestClient? {
      match c
      case DequeueFailed(key) => key
      case Dequeued(_, client, _) => client
    }

    /** What handling a completion may change besides the globals. */
    function Touched(c: Completion): set<object> {
      match c
      case DequeueFailed(key) => if key == null then {} else {key}
      case Dequeued(_, client, event) => {client, event, event.buffer}
    }

    /** `eventLoop`: a failed dequeue closes its client when there is one, an empty transfer
        closes the client, and otherwise the event's kind picks `on_read` or `on_write`. */
    method EventLoop(c: Completion, submit: SubmitResult)
      requires WellFormed(c)
      requires c.Dequeued? ==> c.client.sendMsgs >= 0
      modifies this, Touched(c)
      ensures Subject(c) == null ==> closedSockets == old(closedSockets) && clients == old(clients)
      ensures Subject(c) != null ==>
                closedSockets == old(closedSockets) + CloseLog(old(Subject(c).State()), Subject(c).State())
                && clients == old(clients) - |CloseLog(old(Subject(c).State()), Subject(c).State())|
      ensures c.DequeueFailed? && c.key != null ==> c.key.State() == Close(old(c.key.State()))
      ensures c.Dequeued? && c.bytes == 0 ==> c.client.State() == Close(old(c.client.State()))
      ensures c.Dequeued? && c.bytes > 0 && old(c.event.eventType) == Recv ==>
                c.client.State() == AfterRead(old(c.client.State()), NewlineCount(old(c.event.buffer[..c.bytes])), submit)
      ensures c.Dequeued? && c.bytes > 0 && old(c.event.eventType) == Send ==>
                c.client.State() == AfterWrite(old(c.client.State()), msgs, submit)
      ensures c.Dequeued? && c.bytes == 0 ==> Kept(c.event)
      ensures c.Dequeued? && c.bytes > 0 && old(c.event.eventType) == Recv ==> Armed(c.event)
      ensures c.Dequeued? && c.bytes > 0 && old(c.event.eventType) == Send && old(c.client.sendMsgs) < msgs ==>
                Sending(c.event, SentMessage(c.client.sendMsgs, msgs))
      ensures c.Dequeued? && c.bytes > 0 && old(c.event.eventType) == Send && old(c.client.sendMsgs) >= msgs ==>
                Kept(c.event)
      ensures Subject(c) != null ==> Moves(old(Subject(c).State()), Subject(c).State(), msgs)
    {
      match c
      case DequeueFailed(key) =>
        if key != null {
          CloseClient(key);
        }
      case Dequeued(bytes, client, event) =>
        ghost var s0 := client.State();
        if bytes == 0 {
          CloseClient(client);
        } else if event.eventType == Recv {
          ghost var newlines := NewlineCount(event.buffer[..bytes]);
          OnRead(client, event, bytes, submit);
          if Bounded(s0, msgs) {
            StepsBounded(s0, msgs, newlines, submit);
          }
        } else {
          OnWrite(client, event, bytes, submit);
          if Bounded(s0, msgs) {
            StepsBounded(s0, msgs, 0, submit);
          }
        }
    }

    /** After `clientList[k]` alone changed, the states differ from `st` at k only; the
        live count follows that one client and the bounds still hold. */
    lemma Updated(st: seq<ClientState>, k: nat)
      requires Linked() && k < |st| == |clientList|
      requires forall i :: 0 <= i < |st| && i != k ==> st[i] == clientList[i].State()
      ensures States() == st[k := clientList[k].State()]
      ensures LiveCount(States()) == LiveCount(st) - Live(st[k]) + Live(clientList[k].State())
      ensures AllBounded(st, msgs) && Bounded(clientList[k].State(), msgs) ==>
                AllBounded(States(), msgs)
    {
      assert States() == st[k := clientList[k].State()];
      LiveCountUpdate(st, k, clientList[k].State());
    }

    /** When only `clientList[k]` moved, from `st[k]`, and `gClients` fell by what it
        closed, the invariant holds again. */
    lemma Resettle(st: seq<ClientState>, k: nat, before: int)
      requires Linked() && k < |st| == |clientList|
      requires forall i :: 0 <= i < |st| && i != k ==> st[i] == clientList[i].State()
      requires before == LiveCount(st) && AllBounded(st, msgs)
      requires Moves(st[k], clientList[k].State(), msgs)
      requires clients == before - |CloseLog(st[k], clientList[k].State())|
      ensures Valid() && States() == st[k := clientList[k].State()]
    {
      Updated(st, k);
      LogsCompose(st[k], clientList[k].State(), clientList[k].State());
    }

    /** The position of a client in the list. */
    ghost function IndexOf(client: TestClient): (k: nat)
      requires client in clientList
      ensures k < |clientList| && clientList[k] == client
    {
      var k :| 0 <= k < |clientList| && clientList[k] == client; k
    }

    /** A client of the list, its events and their buffers lie within `objects`. */
    lemma OwnedInObjects(c: TestClient)
      requires Linked() && c in clientList
      ensures Footprint(c) <= objects
    {
      assert InObjects(clientList[IndexOf(c)]);
    }

    /** What a completion touches lies within the clients and their events. */
    lemma TouchedInObjects(c: Completion)
      requires WellFormed(c) && Linked()
      ensures Touched(c) <= objects
    {
      match c
      case DequeueFailed(key) =>
        if key != null {
          OwnedInObjects(key);
        }
      case Dequeued(_, client, event) =>
        OwnedInObjects(client);
    }

    /** The first loop of `main`: `on_read` with no bytes arms each client's receive, then
        `on_write` with no bytes submits its first message, with the given submission
        outcomes, client by client. */
    method StartClients(recvSubmits: seq<SubmitResult>, sendSubmits: seq<SubmitResult>)
      requires Valid() && |recvSubmits| == |sendSubmits| == |clientList|
      requires FootprintsDisjoint(clientList)
      modifies this, objects
      ensures Valid()
      ensures States() == Started(old(States()), msgs, recvSubmits, sendSubmits)
      ensures closedSockets == old(closedSockets) + CloseLogs(old(States()), States())
      ensures EventsStarted()
    {
      ghost var init := States();
      ghost var goal := Started(init, msgs, recvSubmits, sendSubmits);
      ghost var log0 := closedSockets;
      ghost var views := SendViewsUpTo(|clientList|);
      var i := 0;
      while i < |clientList|
        invariant i <= |clientList| && Valid()
        invariant States() == Progress(goal, init, i)
        invariant closedSockets == log0 + CloseLogsUpTo(init, goal, i)
        invariant Ready(i, init, views)
      {
        i := PrimeNext(i, recvSubmits, sendSubmits, init, goal, log0, views);
      }
      AllDone(goal, init);
      ReadyAtEnd(init, views);
    }

    /** The events as the first loop of `main` leaves them: every client's receive armed
        over its whole buffer, and its send event holding its first message, or, for a
        client that was already at the cap, as it was. */
    twostate predicate EventsStarted()
      requires Linked()
      reads objects
    {
      (forall j :: 0 <= j < |clientList| ==> Armed(clientList[j].recvEvent))
      && (forall j :: 0 <= j < |clientList| && old(clientList[j].sendMsgs) < msgs ==>
            Sending(clientList[j].sendEvent, SentMessage(clientList[j].sendMsgs, msgs)))
      && (forall j :: 0 <= j < |clientList| && old(clientList[j].sendMsgs) >= msgs ==>
            Kept(clientList[j].sendEvent))
    }

    /** Once the first loop is through, each client's receive is armed and its send event
        holds its first message, or is as it was for a client already at the cap. */
    twostate lemma ReadyAtEnd(new init: seq<ClientState>, new views: seq<EventView>)
      requires Linked() && |init| == |views| == |clientList|
      requires forall j :: 0 <= j < |clientList| ==> init[j] == old(clientList[j].State())
      requires forall j :: 0 <= j < |clientList| ==> views[j] == old(View(clientList[j].sendEvent))
      requires Ready(|clientList|, init, views)
      ensures EventsStarted()
    {
      forall j | 0 <= j < |clientList|
        ensures Armed(clientList[j].recvEvent)
        ensures init[j].sendMsgs < msgs ==> Sending(clientList[j].sendEvent, SentMessage(clientList[j].sendMsgs, msgs))
      {
        assert Primed(clientList[j], init[j].sendMsgs);
      }
      forall j | 0 <= j < |clientList| && init[j].sendMsgs >= msgs
        ensures Kept(clientList[j].sendEvent)
      {
        KeptByView(clientList[j].sendEvent);
      }
    }

    /** What the first loop leaves in client c's events: the receive armed and, unless
        `sent0` messages were already out, the first message in the send buffer. */
    ghost predicate Primed(c: TestClient, sent0: int)
      reads c, c.recvEvent, c.sendEvent, c.sendEvent.buffer
    {
      Armed(c.recvEvent) && (sent0 < msgs ==> Sending(c.sendEvent, SentMessage(c.sendMsgs, msgs)))
    }

    /** Client c, its events and the send buffer are as they were. */
    twostate predicate Untouched(c: TestClient)
      reads c, c.recvEvent, c.sendEvent, c.sendEvent.buffer
    {
      unchanged(c, c.recvEvent, c.sendEvent, c.sendEvent.buffer)
    }

    /** Where the first loop stands before client i: the clients before i primed, and the
        send events of the clients from i on, and of those already at the cap, as they were. */
    ghost predicate Ready(i: nat, init: seq<ClientState>, views: seq<EventView>)
      requires Linked() && |init| == |views| == |clientList|
      reads objects
    {
      (forall j :: 0 <= j < i && j < |clientList| ==> Primed(clientList[j], init[j].sendMsgs))
      && (forall j :: 0 <= j < |clientList| && (j >= i || init[j].sendMsgs >= msgs) ==>
            View(clientList[j].sendEvent) == views[j])
    }

    /** Priming client i alone, touching no other client, moves the first loop on by one. */
    twostate lemma StillReady(i: nat, new init: seq<ClientState>, new views: seq<EventView>)
      requires Linked() && i < |clientList| && |init| == |views| == |clientList|
      requires old(Ready(i, init, views))
      requires forall j :: 0 <= j < |clientList| && j != i ==> Untouched(clientList[j])
      requires Primed(clientList[i], init[i].sendMsgs)
      requires init[i].sendMsgs >= msgs ==> View(clientList[i].sendEvent) == old(View(clientList[i].sendEvent))
      ensures Ready(i + 1, init, views)
    {
    }

    /** An event whose view is the one it had is `Kept`. */
    twostate lemma KeptByView(e: TestEvent)
      requires View(e) == old(View(e))
      ensures Kept(e)
    {
    }

    /** One turn of the first loop, with its events: StartNext, which moves the first loop
        on by one. */
    method PrimeNext(i: nat, recvSubmits: seq<SubmitResult>, sendSubmits: seq<SubmitResult>,
                     ghost init: seq<ClientState>, ghost goal: seq<ClientState>, ghost log0: seq<int>,
                     ghost views: seq<EventView>)
      returns (next: nat)
      requires Valid() && i < |clientList| && |init| == |recvSubmits| == |sendSubmits| == |clientList|
      requires goal == Started(init, msgs, recvSubmits, sendSubmits)
      requires States() == Progress(goal, init, i)
      requires closedSockets == log0 + CloseLogsUpTo(init, goal, i)
      requires FootprintsDisjoint(clientList)
      requires |views| == |clientList| && Ready(i, init, views)
      modifies this, objects
      ensures next == i + 1 && next <= |clientList| && Valid()
      ensures States() == Progress(goal, init, next)
      ensures closedSockets == log0 + CloseLogsUpTo(init, goal, next)
      ensures Ready(next, init, views)
    {
      next := i + 1;
      OwnedInObjects(clientList[i]);
      assert ApartFromOthers(clientList, i);
      StartNext(i, recvSubmits, sendSubmits, init, log0);
      StillReady(i, init, views);
    }

    /** StartClient on the next client, keeping the done clients before it and the
        waiting ones after it, and touching no other client. */
    method StartNext(i: nat, recvSubmits: seq<SubmitResult>, sendSubmits: seq<SubmitResult>,
                     ghost init: seq<ClientState>, ghost log0: seq<int>)
      requires Valid() && i < |clientList| && |init| == |recvSubmits| == |sendSubmits| == |clientList|
      requires States() == Progress(Started(init, msgs, recvSubmits, sendSubmits), init, i)
      requires closedSockets == log0 + CloseLogsUpTo(init, Started(init, msgs, recvSubmits, sendSubmits), i)
      requires ApartFromOthers(clientList, i)
      modifies this, clientList[i], clientList[i].recvEvent, clientList[i].sendEvent, clientList[i].sendEvent.buffer
      ensures Valid() && States() == Progress(Started(init, msgs, recvSubmits, sendSubmits), init, i + 1)
      ensures closedSockets == log0 + CloseLogsUpTo(init, Started(init, msgs, recvSubmits, sendSubmits), i + 1)
      ensures Primed(clientList[i], init[i].sendMsgs)
      ensures init[i].sendMsgs >= msgs ==> Kept(clientList[i].sendEvent)
      ensures forall j :: 0 <= j < |clientList| && j != i ==> Untouched(clientList[j])
    {
      ghost var goal := Started(init, msgs, recvSubmits, sendSubmits);
      StartedAt(init, msgs, recvSubmits, sendSubmits, i);
      Splice(goal, init, i);
      assert clientList[i].State() == init[i];
      CloseLogsStep(init, goal, i);
      AppendAssoc(log0, CloseLogs(init[..i], goal[..i]), CloseLog(init[i], goal[i]));
      StartClient(i, recvSubmits[i], sendSubmits[i]);
    }

    /** One turn of the first loop of `main`, for client i, keeping the test's invariant. */
    method StartClient(i: nat, recvSubmit: SubmitResult, sendSubmit: SubmitResult)
      requires Valid() && i < |clientList| && ApartFromOthers(clientList, i)
      modifies this, clientList[i], clientList[i].recvEvent, clientList[i].sendEvent, clientList[i].sendEvent.buffer
      ensures forall j :: 0 <= j < |clientList| && j != i ==> Untouched(clientList[j])
      ensures Valid() && States() == old(States())[i := clientList[i].State()]
      ensures clientList[i].State() == AfterWrite(AfterRead(old(clientList[i].State()), 0, recvSubmit), msgs, sendSubmit)
      ensures closedSockets == old(closedSockets) + CloseLog(old(clientList[i].State()), clientList[i].State())
      ensures Armed(clientList[i].recvEvent)
      ensures old(clientList[i].sendMsgs) < msgs ==>
                Sending(clientList[i].sendEvent, SentMessage(clientList[i].sendMsgs, msgs))
      ensures old(clientList[i].sendMsgs) >= msgs ==>
                Kept(clientList[i].sendEvent)
    {
      var client := clientList[i];
      ghost var st := States();
      ghost var before := clients;
      Prime(client, recvSubmit, sendSubmit, i);
      Resettle(st, i, before);
    }

    /** The body of the first loop of `main` for one client: `on_read` with no bytes on its
        receive event arms the receive, then `on_write` with no bytes on its send event
        submits the first message. */
    method Prime(client: TestClient, recvSubmit: SubmitResult, sendSubmit: SubmitResult, ghost i: nat)
      requires client.Valid() && client.sendMsgs >= 0
      requires i < |clientList| && clientList[i] == client && ApartFromOthers(clientList, i)
      requires forall j :: 0 <= j < |clientList| && j != i ==> clientList[j] != client
      modifies this, client, client.recvEvent, client.sendEvent, client.sendEvent.buffer
      ensures forall j :: 0 <= j < |clientList| && j != i ==> Untouched(clientList[j])
      ensures client.State() == AfterWrite(AfterRead(old(client.State()), 0, recvSubmit), msgs, sendSubmit)
      ensures closedSockets == old(closedSockets) + CloseLog(old(client.State()), client.State())
      ensures clients == old(clients) - |CloseLog(old(client.State()), client.State())|
      ensures Moves(old(client.State()), client.State(), msgs)
      ensures Armed(client.recvEvent)
      ensures old(client.sendMsgs) < msgs ==> Sending(client.sendEvent, SentMessage(client.sendMsgs, msgs))
      ensures old(client.sendMsgs) >= msgs ==> Kept(client.sendEvent)
    {
      ghost var s0 := client.State();
      OnRead(client, client.recvEvent, 0, recvSubmit);
      assert client.recvEvent.buffer[..0] == [];
      ghost var s1 := client.State();
      OnWrite(client, client.sendEvent, 0, sendSubmit);
      ghost var s2 := client.State();
      StepsMove(s0, msgs, 0, recvSubmit);
      StepsMove(s1, msgs, 0, sendSubmit);
      LogsCompose(s0, s1, s2);
      AppendAssoc(old(closedSockets), CloseLog(s0, s1), CloseLog(s1, s2));
    }

    /** One turn of the main loop: `eventLoop` on the next completion, keeping the whole
        test's invariant, with `gClients` lowered by the descriptors closed. */
    method Turn(s: Step)
      requires Valid() && WellFormed(s.completion)
      modifies this, objects
      ensures Valid()
      ensures |old(closedSockets)| <= |closedSockets|
      ensures clients == old(clients) - (|closedSockets| - |old(closedSockets)|)
      ensures closedSockets[..|old(closedSockets)|] == old(closedSockets)
    {
      TouchedInObjects(s.completion);
      if Subject(s.completion) == null {
        ghost var st := States();
        EventLoop(s.completion, s.submit);
        assert States() == st;
      } else {
        TurnOn(s, IndexOf(Subject(s.completion)));
      }
    }

    /** A turn whose completion is about client k. */
    method TurnOn(s: Step, ghost k: nat)
      requires Valid() && WellFormed(s.completion)
      requires k < |clientList| && Subject(s.completion) == clientList[k]
      requires Touched(s.completion) <= objects
      modifies this, Touched(s.completion)
      ensures Valid()
      ensures |old(closedSockets)| <= |closedSockets|
      ensures clients == old(clients) - (|closedSockets| - |old(closedSockets)|)
      ensures closedSockets[..|old(closedSockets)|] == old(closedSockets)
    {
      ghost var st := States();
      ghost var before := clients;
      EventLoop(s.completion, s.submit);
      Resettle(st, k, before);
    }

    /** `while( gClients > 0 ) eventLoop( hIocp )`, over the completions given: it stops as
        soon as every client has exited, and runs no turn when none was connected. */
    method RunUntilAllExit(steps: seq<Step>) returns (ran: nat)
      requires Valid()
      requires forall i :: 0 <= i < |steps| ==> WellFormed(steps[i].completion)
      modifies this, objects
      ensures Valid() && ran <= |steps|
      ensures ran < |steps| ==> clients == 0
      ensures old(clients) == 0 ==> ran == 0
      ensures |old(closedSockets)| <= |closedSockets|
      ensures clients == old(clients) - (|closedSockets| - |old(closedSockets)|)
      ensures closedSockets[..|old(closedSockets)|] == old(closedSockets)
    {
      ran := 0;
      while clients > 0 && ran < |steps|
        invariant Valid() && ran <= |steps|
        invariant old(clients) == 0 ==> ran == 0
        invariant |old(closedSockets)| <= |closedSockets|
        invariant clients == old(clients) - (|closedSockets| - |old(closedSockets)|)
        invariant closedSockets[..|old(closedSockets)|] == old(closedSockets)
      {
        ghost var before := closedSockets;
        Turn(steps[ran]);
        assert closedSockets[..|before|] == before;
        ran := ran + 1;
      }
    }

    /** The report loop of `main`: the totals of sent and received messages over all
        clients, and `closesocket` on every descriptor still open. */
    method Report() returns (totalSend: int, totalRecv: int)
      requires Valid()
      modifies this
      ensures totalSend == SumSend(States()) && totalRecv == SumRecv(States())
      ensures 0 <= totalSend <= |clientList| * Cap(msgs) && totalRecv >= 0
      ensures closedSockets == old(closedSockets) + OpenFds(States())
      ensures clients == old(clients) && Valid()
      ensures clients == 0 ==> closedSockets == old(closedSockets)
    {
      ghost var st := States();
      var closed;
      totalSend, totalRecv, closed := Tally(clientList, st);
      closedSockets := closedSockets + closed;
      assert States() == st;
      SumBounds(st, msgs);
      NoneLiveNoneOpen(st);
    }

    /** The body of `main` once the clients are connected: the first receive and send of
        every client, the event loop until all have exited (or the completions run out),
        then the report. */
    method Run(recvSubmits: seq<SubmitResult>, sendSubmits: seq<SubmitResult>, steps: seq<Step>)
      returns (ran: nat, totalSend: int, totalRecv: int)
      requires Valid() && |recvSubmits| == |clientList| && |sendSubmits| == |clientList|
      requires FootprintsDisjoint(clientList)
      requires forall i :: 0 <= i < |steps| ==> WellFormed(steps[i].completion)
      modifies this, objects
      ensures Valid() && ran <= |steps|
      ensures ran < |steps| ==> clients == 0
      ensures totalSend == SumSend(States()) && totalRecv == SumRecv(States())
      ensures 0 <= totalSend <= |clientList| * Cap(msgs) && totalRecv >= 0
    {
      StartClients(recvSubmits, sendSubmits);
      ran := RunUntilAllExit(steps);
      totalSend, totalRecv := Report();
    }
  }

  /** The loop of the report: the sent and received totals over the clients, and the
      descriptors passed to `closesocket`, those still open, in client order. */
  method Tally(cs: seq<TestClient>, ghost st: seq<ClientState>) returns (totalSend: int, totalRecv: int, closed: seq<int>)
    requires |st| == |cs| && forall i :: 0 <= i < |cs| ==> cs[i].State() == st[i]
    ensures totalSend == SumSend(st) && totalRecv == SumRecv(st)
    ensures closed == OpenFds(st)
  {
    totalSend, totalRecv, closed := 0, 0, [];
    var i := 0;
    while i < |cs|
      invariant 0 <= i <= |cs|
      invariant totalSend == SumSend(st[..i]) && totalRecv == SumRecv(st[..i])
      invariant closed == OpenFds(st[..i])
    {
      var client := cs[i];
      assert client.State() == st[i];
      ReportStep(st, i);
      totalSend := totalSend + client.sendMsgs;
      totalRecv := totalRecv + client.recvMsgs;
      if client.fd != InvalidSocket {
        closed := closed + [client.fd];
      }
      i := i + 1;
    }
    assert st[..i] == st;
  }

  /** The state of every client after the first loop of `main`. */
  function Started(st: seq<ClientState>, msgs: int, recvSubmits: seq<SubmitResult>, sendSubmits: seq<SubmitResult>): (r: seq<ClientState>)
    requires |recvSubmits| == |sendSubmits| == |st|
    ensures |r| == |st|
  {
    seq(|st|, j requires 0 <= j < |st| => AfterWrite(AfterRead(st[j], 0, recvSubmits[j]), msgs, sendSubmits[j]))
  }

  lemma StartedAt(st: seq<ClientState>, msgs: int, recvSubmits: seq<SubmitResult>, sendSubmits: seq<SubmitResult>, i: nat)
    requires |recvSubmits| == |sendSubmits| == |st| && i < |st|
    ensures Started(st, msgs, recvSubmits, sendSubmits)[i] == AfterWrite(AfterRead(st[i], 0, recvSubmits[i]), msgs, sendSubmits[i])
  {
  }

  /** From connected clients that have done nothing, with every submission accepted (or
      pending), each client is still open, has one message out (none when `gMsgs` is not
      positive) and has received nothing. */
  lemma StartedFresh(st: seq<ClientState>, msgs: int, recvSubmits: seq<SubmitResult>, sendSubmits: seq<SubmitResult>)
    requires |recvSubmits| == |sendSubmits| == |st|
    requires forall j :: 0 <= j < |st| ==> st[j].sendMsgs == 0 && st[j].recvMsgs == 0
    requires forall j :: 0 <= j < |st| ==> !ClosesClient(recvSubmits[j]) && !ClosesClient(sendSubmits[j])
    ensures forall j :: 0 <= j < |st| ==>
              Started(st, msgs, recvSubmits, sendSubmits)[j] == st[j].(sendMsgs := if msgs > 0 then 1 else 0)
  {
  }

  /** The descriptors closed while each client went from `before[j]` to `after[j]`, in
      client order. */
  function CloseLogs(before: seq<ClientState>, after: seq<ClientState>): seq<int>
    requires |before| == |after|
  {
    if before == [] then []
    else CloseLogs(before[..|before| - 1], after[..|after| - 1]) + CloseLog(before[|before| - 1], after[|after| - 1])
  }

  /** The first i clients done, the others still waiting. */
  function Progress(done: seq<ClientState>, waiting: seq<ClientState>, i: nat): seq<ClientState>
    requires |done| == |waiting| && i <= |done|
  {
    done[..i] + waiting[i..]
  }

  /** Moving the boundary between the done and the waiting clients one place on. */
  lemma Splice(done: seq<ClientState>, waiting: seq<ClientState>, i: nat)
    requires |done| == |waiting| && i < |done|
    ensures |Progress(done, waiting, i)| == |done| && Progress(done, waiting, i)[i] == waiting[i]
    ensures Progress(done, waiting, i)[i := done[i]] == Progress(done, waiting, i + 1)
  {
  }

  /** With every client done, the states are the done ones and the log is complete. */
  lemma AllDone(done: seq<ClientState>, waiting: seq<ClientState>)
    requires |done| == |waiting|
    ensures Progress(done, waiting, |done|) == done
    ensures CloseLogsUpTo(waiting, done, |done|) == CloseLogs(waiting, done)
  {
    assert done[..|done|] == done && waiting[..|done|] == waiting;
  }

  /** The descriptors closed by the first i clients. */
  function CloseLogsUpTo(before: seq<ClientState>, after: seq<ClientState>, i: nat): seq<int>
    requires |before| == |after| && i <= |before|
  {
    CloseLogs(before[..i], after[..i])
  }

  lemma CloseLogsStep(before: seq<ClientState>, after: seq<ClientState>, i: nat)
    requires |before| == |after| && i < |before|
    ensures CloseLogs(before[..i + 1], after[..i + 1]) == CloseLogs(before[..i], after[..i]) + CloseLog(before[i], after[i])
  {
    assert before[..i + 1][..i] == before[..i];
    assert after[..i + 1][..i] == after[..i];
  }

  /** One client's step: its descriptor is kept or closed, and the bounds are kept. */
  predicate Moves(s0: ClientState, s1: ClientState, msgs: int) {
    (s1.fd == s0.fd || s1.fd == InvalidSocket) && (Bounded(s0, msgs) ==> Bounded(s1, msgs))
  }

  /** Every step of a client is a move: closing, reading and writing each keep or close the
      descriptor and keep the bounds. */
  lemma StepsMove(s: ClientState, msgs: int, newlines: nat, submit: SubmitResult)
    ensures Moves(s, Close(s), msgs)
    ensures Moves(s, AfterRead(s, newlines, submit), msgs)
    ensures Moves(s, AfterWrite(s, msgs, submit), msgs)
  {
  }

  /** A client's descriptor is either kept or closed; then two steps close what the whole
      step closes, and the live count falls by what was closed. */
  lemma LogsCompose(s0: ClientState, s1: ClientState, s2: ClientState)
    requires s1.fd == s0.fd || s1.fd == InvalidSocket
    requires s2.fd == s1.fd || s2.fd == InvalidSocket
    ensures CloseLog(s0, s1) + CloseLog(s1, s2) == CloseLog(s0, s2)
    ensures Live(s2) == Live(s0) - |CloseLog(s0, s2)|
  {
  }

  /** Connected clients that have sent and received nothing are all live and within bounds. */
  lemma {:induction false} AllLive(st: seq<ClientState>, msgs: int)
    requires forall i :: 0 <= i < |st| ==> st[i] == ClientState(st[i].fd, 0, 0) && st[i].fd != InvalidSocket
    ensures LiveCount(st) == |st| && AllBounded(st, msgs)
  {
    if st != [] {
      AllLive(st[..|st| - 1], msgs);
    }
  }
}
