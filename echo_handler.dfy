/** The line-echo handler of the IOCP echo server (trunk/spserver/testiocpecho.cpp):
    `start` installs a line decoder and greets the client, `handle` empties the decoder's
    queue of decoded lines, echoing each line with CRLF and answering a case-insensitive
    `quit` with `Byebye`. */
module EchoHandler {
  import opened Wrappers

  /** `tolower` in the "C" locale: only 'A'..'Z' change. */
  function ToLower(c: char): char {
    if 'A' <= c <= 'Z' then (c as int + 32) as char else c
  }

  /** A C string holds no NUL character: its end is where the terminator is. */
  predicate IsCString(s: string) {
    forall i :: 0 <= i < |s| ==> s[i] != '\0'
  }

  /** The text of a NUL-terminated `char *`, without its terminator. */
  type CString = s: string | IsCString(s)

  predicate EqualIgnoringCase(a: string, b: string) {
    |a| == |b| && forall i :: 0 <= i < |a| ==> ToLower(a[i]) == ToLower(b[i])
  }

  /** `strcasecmp`: the difference of the first pair of lowered characters that differ,
      reading the end of either string as its NUL terminator; zero when none differ. */
  function StrCaseCmp(a: string, b: string): (r: int)
    ensures EqualIgnoringCase(a, b) ==> r == 0
  {
    if a == [] || b == [] then
      (if a == [] then 0 else ToLower(a[0]) as int) - (if b == [] then 0 else ToLower(b[0]) as int)
    else if ToLower(a[0]) != ToLower(b[0]) then
      ToLower(a[0]) as int - ToLower(b[0]) as int
    else
      StrCaseCmp(a[1..], b[1..])
  }

  /** For C strings, `strcasecmp` reports zero exactly when the strings are equal
      ignoring ASCII case. */
  lemma {:induction false} StrCaseCmpZero(a: string, b: string)
    requires IsCString(a) && IsCString(b)
    ensures StrCaseCmp(a, b) == 0 <==> EqualIgnoringCase(a, b)
  {
    if a == [] || b == [] {
      if a != [] { assert ToLower(a[0]) != '\0'; }
      if b != [] { assert ToLower(b[0]) != '\0'; }
    } else if ToLower(a[0]) == ToLower(b[0]) {
      assert IsCString(a[1..]) && IsCString(b[1..]);
      StrCaseCmpZero(a[1..], b[1..]);
      if EqualIgnoringCase(a[1..], b[1..]) {
        forall i | 0 <= i < |a| ensures ToLower(a[i]) == ToLower(b[i]) {
          if i > 0 { assert ToLower(a[1..][i - 1]) == ToLower(b[1..][i - 1]); }
        }
      }
      if EqualIgnoringCase(a, b) {
        forall i | 0 <= i < |a[1..]| ensures ToLower(a[1..][i]) == ToLower(b[1..][i]) {
          assert ToLower(a[i + 1]) == ToLower(b[i + 1]);
        }
      }
    } else {
      assert !EqualIgnoringCase(a, b) by { assert ToLower(a[0]) != ToLower(b[0]); }
    }
  }

  const Quit: string := "quit"
  const Welcome: string := "Welcome to line echo server, enter 'quit' to quit.\r\n"
  const Byebye: string := "Byebye\r\n"
  const CrLf: string := "\r\n"

  /** The test `handle` applies to each line: `strcasecmp(line, "quit") == 0`. */
  predicate IsQuit(line: string)
    ensures IsQuit(line) <==>
      |line| >= 4 && EqualIgnoringCase(line[..4], Quit) && (|line| == 4 || line[4] == '\0')
  {
    StrCaseCmpAgainst(line, Quit);
    StrCaseCmp(line, Quit) == 0
  }

  /** Equality ignoring case, one character at a time from the front. */
  lemma EqualIgnoringCaseFront(x: string, y: string)
    requires |x| == |y| > 0 && ToLower(x[0]) == ToLower(y[0])
    ensures EqualIgnoringCase(x, y) <==> EqualIgnoringCase(x[1..], y[1..])
  {
    if EqualIgnoringCase(x[1..], y[1..]) {
      forall i | 0 <= i < |x| ensures ToLower(x[i]) == ToLower(y[i]) {
        if i > 0 { assert ToLower(x[1..][i - 1]) == ToLower(y[1..][i - 1]); }
      }
    }
    if EqualIgnoringCase(x, y) {
      forall i | 0 <= i < |x| - 1 ensures ToLower(x[1..][i]) == ToLower(y[1..][i]) {
        assert ToLower(x[i + 1]) == ToLower(y[i + 1]);
      }
    }
  }

  /** `strcasecmp(a, b)` for a C string `b` is zero exactly when `a` starts with `b`,
      ignoring case, and ends there or continues with a NUL. */
  lemma {:induction false} StrCaseCmpAgainst(a: string, b: string)
    requires IsCString(b)
    ensures StrCaseCmp(a, b) == 0 <==>
      |a| >= |b| && EqualIgnoringCase(a[..|b|], b) && (|a| == |b| || a[|b|] == '\0')
    decreases |b|
  {
    if b == [] {
      if a != [] { assert ToLower(a[0]) == '\0' <==> a[0] == '\0'; }
    } else if a == [] {
      assert ToLower(b[0]) != '\0';
    } else if ToLower(a[0]) != ToLower(b[0]) {
      if |a| >= |b| { assert a[..|b|][0] == a[0]; }
    } else {
      assert IsCString(b[1..]);
      StrCaseCmpAgainst(a[1..], b[1..]);
      if |a| >= |b| {
        assert a[1..][..|b| - 1] == a[..|b|][1..];
        if |a| > |b| { assert a[1..][|b| - 1] == a[|b|]; }
        EqualIgnoringCaseFront(a[..|b|], b);
      }
    }
  }

  /** For a line that is a C string, `IsQuit` means: the line is "quit" in any mix of
      upper and lower case. */
  lemma IsQuitMeansQuitIgnoringCase(line: string)
    requires IsCString(line)
    ensures IsQuit(line) <==> QuitIgnoringCase(line)
  {
    StrCaseCmpZero(line, Quit);
  }

  /** The line is "quit" in any mix of upper and lower case. */
  predicate QuitIgnoringCase(line: string) {
    |line| == 4 && forall i :: 0 <= i < 4 ==> ToLower(line[i]) == Quit[i]
  }

  /** What `handle` appends for one popped line. */
  function ReplyFor(line: string): (reply: string)
    ensures |reply| >= 2 && reply[|reply| - 2] == '\r' && reply[|reply| - 1] == '\n'
  {
    if IsQuit(line) then Byebye else line + CrLf
  }

  /** What `handle` appends for a batch of lines, taken in queue order. */
  function EchoReply(lines: seq<string>): (reply: string)
    ensures |reply| >= 2 * |lines|
    ensures lines != [] ==> reply[|reply| - 2] == '\r' && reply[|reply| - 1] == '\n'
  {
    if lines == [] then "" else EchoReply(lines[..|lines| - 1]) + ReplyFor(lines[|lines| - 1])
  }

  /** Some line of the batch is `quit`. */
  predicate HasQuit(lines: seq<string>) {
    lines != [] && (HasQuit(lines[..|lines| - 1]) || IsQuit(lines[|lines| - 1]))
  }

  /** `HasQuit` holds exactly when some line of the batch is `quit`. */
  lemma {:induction false} HasQuitAt(lines: seq<string>)
    ensures HasQuit(lines) <==> exists i :: 0 <= i < |lines| && IsQuit(lines[i])
  {
    if lines != [] {
      var init := lines[..|lines| - 1];
      HasQuitAt(init);
      if exists i :: 0 <= i < |init| && IsQuit(init[i]) {
        var i :| 0 <= i < |init| && IsQuit(init[i]);
        assert lines[i] == init[i];
      }
      if exists i :: 0 <= i < |lines| && IsQuit(lines[i]) {
        var i :| 0 <= i < |lines| && IsQuit(lines[i]);
        if i < |init| {
          assert init[i] == lines[i];
        }
      }
    }
  }

  /** For the C strings a line decoder queues, `handle` closes the session exactly when
      one of the lines is "quit" in any mix of case. */
  lemma HasQuitIgnoringCase(lines: seq<CString>)
    ensures HasQuit(lines) <==> exists i :: 0 <= i < |lines| && QuitIgnoringCase(lines[i])
  {
    HasQuitAt(lines);
    forall i | 0 <= i < |lines|
      ensures IsQuit(lines[i]) <==> QuitIgnoringCase(lines[i])
    {
      IsQuitMeansQuitIgnoringCase(lines[i]);
    }
  }

  /** The reply to two batches handled one after the other is the reply to the joined
      batch: how the decoder splits the stream into `handle` calls does not matter. */
  lemma {:induction false} EchoReplyAppend(a: seq<string>, b: seq<string>)
    ensures EchoReply(a + b) == EchoReply(a) + EchoReply(b)
  {
    if b != [] {
      var init, last := b[..|b| - 1], b[|b| - 1];
      assert (a + b)[..|a + b| - 1] == a + init;
      assert (a + b)[|a + b| - 1] == last;
      EchoReplyAppend(a, init);
      AppendAssoc(EchoReply(a), EchoReply(init), ReplyFor(last));
    } else {
      assert a + b == a;
    }
  }

  /** A `quit` answers `Byebye` in its place and does not stop the batch: the lines
      after it are still echoed. */
  lemma EchoReplyAroundQuit(before: seq<string>, q: string, after: seq<string>)
    requires IsQuit(q)
    ensures EchoReply(before + [q] + after) == EchoReply(before) + Byebye + EchoReply(after)
  {
    EchoReplyAppend(before + [q], after);
    assert (before + [q])[..|before + [q]| - 1] == before;
  }

  /** Splits a reply back into lines at each CRLF; text after the last CRLF is one more
      (unterminated) line. This is how a client reads the echoed lines back. */
  function SplitCrLf(s: string): seq<string> {
    if s == [] then []
    else if |s| >= 2 && s[0] == '\r' && s[1] == '\n' then [""] + SplitCrLf(s[2..])
    else
      var rest := SplitCrLf(s[1..]);
      if rest == [] then [[s[0]]] else [[s[0]] + rest[0]] + rest[1..]
  }

  lemma {:induction false} SplitCrLfLine(line: string, rest: string)
    requires forall i :: 0 <= i < |line| ==> line[i] != '\r'
    ensures SplitCrLf(line + CrLf + rest) == [line] + SplitCrLf(rest)
  {
    if line == [] {
      assert line + CrLf + rest == ['\r', '\n'] + rest;
      assert (['\r', '\n'] + rest)[2..] == rest;
    } else {
      var s := line + CrLf + rest;
      assert s[1..] == line[1..] + CrLf + rest;
      SplitCrLfLine(line[1..], rest);
      assert [s[0]] + line[1..] == line;
    }
  }

  /** Round trip: when no line contains CR and none is `quit`, the client recovers
      exactly the lines it sent by splitting the reply at CRLF. */
  lemma {:induction false} SplitEchoReply(lines: seq<string>)
    requires forall k :: 0 <= k < |lines| ==> !IsQuit(lines[k])
    requires forall k, i :: 0 <= k < |lines| && 0 <= i < |lines[k]| ==> lines[k][i] != '\r'
    ensures SplitCrLf(EchoReply(lines)) == lines
  {
    if lines != [] {
      var tail := lines[1..];
      EchoReplyFirst(lines);
      SplitCrLfLine(lines[0], EchoReply(tail));
      forall k | 0 <= k < |tail| ensures !IsQuit(tail[k]) {
        assert tail[k] == lines[k + 1];
      }
      forall k, i | 0 <= k < |tail| && 0 <= i < |tail[k]| ensures tail[k][i] != '\r' {
        assert tail[k] == lines[k + 1];
      }
      SplitEchoReply(tail);
    }
  }

  /** A batch whose first line is not `quit` answers with that line and CRLF first. */
  lemma EchoReplyFirst(lines: seq<string>)
    requires lines != [] && !IsQuit(lines[0])
    ensures EchoReply(lines) == lines[0] + CrLf + EchoReply(lines[1..])
  {
    assert lines == [lines[0]] + lines[1..];
    assert EchoReply([lines[0]]) == ReplyFor(lines[0]) by { assert [lines[0]][..0] == []; }
    EchoReplyAppend([lines[0]], lines[1..]);
  }

  /** The reply to a single line is that line's reply. */
  lemma EchoReplyOne(line: string)
    ensures EchoReply([line]) == ReplyFor(line)
  {
    assert [line][..0] == [];
  }

  /** Taking one more line off the queue appends its reply and adds its `quit` test. */
  lemma Popped(done: seq<string>, queue: seq<string>, lines: seq<string>)
    requires done + queue == lines && queue != []
    ensures (done + [queue[0]]) + queue[1..] == lines
    ensures EchoReply(done + [queue[0]]) == EchoReply(done) + ReplyFor(queue[0])
    ensures HasQuit(done + [queue[0]]) <==> HasQuit(done) || IsQuit(queue[0])
  {
    assert queue == [queue[0]] + queue[1..];
    assert (done + [queue[0]])[..|done|] == done;
  }

  /** The decoder a request carries. `SP_MultiLineMsgDecoder` keeps a queue of the lines
      it has decoded so far, each a NUL-terminated C string; any other decoder is opaque
      here. */
  datatype Decoder = OtherDecoder | MultiLineDecoder(queue: seq<CString>)

  /** `SP_Request`: the part the handler touches is its message decoder. */
  class Request {
    var decoder: Decoder

    constructor (decoder: Decoder)
      ensures this.decoder == decoder
    {
      this.decoder := decoder;
    }
  }

  /** `SP_Response`: the part the handler touches is the reply message buffer. */
  class Response {
    var reply: string

    constructor ()
      ensures reply == ""
    {
      reply := "";
    }
  }

  /** `SP_EchoHandler`; it has no state of its own. */
  class Handler {

    constructor ()
    {
    }

    /** Installs a fresh line decoder, greets the client and keeps the session open. */
    method Start(request: Request, response: Response) returns (r: int)
      modifies request, response
      ensures request.decoder == MultiLineDecoder([])
      ensures response.reply == old(response.reply) + Welcome
      ensures r == 0
    {
      request.decoder := MultiLineDecoder([]);
      response.reply := response.reply + Welcome;
      r := 0;
    }

    /** Pops every queued line in order, appending its echo (or `Byebye` for `quit`) to
        the reply; returns -1 (close the session) iff some line was `quit`. */
    method Handle(request: Request, response: Response) returns (r: int)
      requires request.decoder.MultiLineDecoder?
      modifies request, response
      ensures request.decoder == MultiLineDecoder([])
      ensures response.reply == old(response.reply) + EchoReply(old(request.decoder.queue))
      ensures r == (if HasQuit(old(request.decoder.queue)) then -1 else 0)
    {
      ghost var lines := request.decoder.queue;
      ghost var done: seq<string> := [];
      var ret := 0;
      while request.decoder.queue != []
        invariant request.decoder.MultiLineDecoder?
        invariant done + request.decoder.queue == lines
        invariant response.reply == old(response.reply) + EchoReply(done)
        invariant ret == (if HasQuit(done) then -1 else 0)
        decreases |request.decoder.queue|
      {
        var line := request.decoder.queue[0];
        Popped(done, request.decoder.queue, lines);
        request.decoder := MultiLineDecoder(request.decoder.queue[1..]);
        var quit := EchoLine(response, line);
        AppendAssoc(old(response.reply), EchoReply(done), ReplyFor(line));
        if quit {
          ret := -1;
        }
        done := done + [line];
      }
      assert done == lines;
      r := ret;
    }

    /** The body of the loop of `handle` for one popped line: echo it with CRLF, or
        answer `Byebye` when it is `quit`. */
    static method EchoLine(response: Response, line: string) returns (quit: bool)
      modifies response
      ensures response.reply == old(response.reply) + ReplyFor(line)
      ensures quit == IsQuit(line)
    {
      if StrCaseCmp(line, Quit) != 0 {
        response.reply := response.reply + line;
        response.reply := response.reply + CrLf;
        quit := false;
      } else {
        response.reply := response.reply + Byebye;
        quit := true;
      }
    }

    /** The I/O-failure hook does nothing. */
    method Error(response: Response)
      ensures response.reply == old(response.reply)
    {
    }

    /** The idle-timeout hook does nothing. */
    method Timeout(response: Response)
      ensures response.reply == old(response.reply)
    {
    }

    /** The terminal hook does nothing. */
    method Close()
    {
    }
  }

  /** `SP_EchoHandlerFactory`: one new handler per accepted connection. */
  class HandlerFactory {

    constructor ()
    {
    }

    method Create() returns (h: Handler)
      ensures fresh(h)
    {
      h := new Handler();
    }
  }

  /** The dialogue of the echo server's end-to-end test: greeting, the echo of "hello",
      then `Byebye` and the request to close. */
  /** "hello" is a C string; sent alone, it is echoed with CRLF and does not close the session. */
  lemma HelloReply()
    ensures IsCString("hello")
    ensures EchoReply(["hello"]) == "hello\r\n" && !HasQuit(["hello"])
  {
    EchoReplyOne("hello");
    assert !IsQuit("hello") by { assert "hello"[4] != '\0'; }
    assert ["hello"][..0] == [];
  }

  /** "quit" is a C string; sent alone, it is answered with `Byebye` and closes the session. */
  lemma QuitReply()
    ensures IsCString("quit")
    ensures EchoReply(["quit"]) == Byebye && HasQuit(["quit"])
  {
    EchoReplyOne("quit");
    assert IsQuit("quit");
    assert ["quit"][..0] == [];
  }

  method GreetEchoQuit() returns (reply: string, closes: bool)
    ensures reply == Welcome + "hello\r\n" + Byebye
    ensures closes
  {
    var request := new Request(OtherDecoder);
    var response := new Response();
    var handler := new Handler();
    var r := handler.Start(request, response);
    ghost var greeted := response.reply;
    assert greeted == Welcome;
    HelloReply();
    QuitReply();
    request.decoder := MultiLineDecoder(["hello"]);
    r := handler.Handle(request, response);
    assert response.reply == greeted + "hello\r\n";
    request.decoder := MultiLineDecoder(["quit"]);
    r := handler.Handle(request, response);
    assert response.reply == greeted + "hello\r\n" + Byebye;
    reply := response.reply;
    closes := r == -1;
  }
}
