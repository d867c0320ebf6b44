/** `SP_IOUtils` (trunk/spserver/spioutils.cpp): formatting an IPv4 address, switching a
    descriptor between blocking and non-blocking mode, and opening a listening TCP socket.
    Every system call is replaced by the outcome it returns, chosen by the caller. */
module IOUtils {
  import opened Wrappers
  import opened Format

  type byte = x: int | 0 <= x < 256

  /** The four bytes of an `in_addr`, in memory (network) order. */
  type InAddrBytes = s: seq<byte> | |s| == 4 witness [0, 0, 0, 0]

  /** `inet_ntoa` style text: the four bytes in decimal, separated by dots. */
  function DottedQuad(p: InAddrBytes): (text: string)
    ensures forall i :: 0 <= i < |text| ==> IsDigit(text[i]) || text[i] == '.'
  {
    ByteDigits(p[0]); ByteDigits(p[1]); ByteDigits(p[2]); ByteDigits(p[3]);
    FormatInt(p[0]) + "." + FormatInt(p[1]) + "." + FormatInt(p[2]) + "." + FormatInt(p[3])
  }

  /** `inetNtoa(addr, ip, size)`: what `snprintf(ip, size, "%i.%i.%i.%i", ...)` leaves in
      `ip`; `None` when nothing is written (size 0). */
  function InetNtoa(p: InAddrBytes, size: int): (ip: Option<string>)
    ensures ip.None? <==> size == 0
    ensures ip.Some? ==> ip.value <= DottedQuad(p) && |ip.value| <= 15
    ensures ip.Some? && size > 0 ==> |ip.value| < size
  {
    DottedQuadLength(p);
    Snprintf(DottedQuad(p), size)
  }

  lemma ByteDigits(b: byte)
    ensures 1 <= |FormatInt(b)| <= 3 && AllDigits(FormatInt(b))
    ensures '.' !in FormatInt(b)
  {
    assert Pow10(3) == 1000;
    DecimalDigitsLength(b, 3);
  }

  /** The dotted quad takes 7 to 15 characters, so a buffer of 16 bytes
      (`INET_ADDRSTRLEN`) always holds it whole. */
  lemma DottedQuadLength(p: InAddrBytes)
    ensures 7 <= |DottedQuad(p)| <= 15
  {
    ByteDigits(p[0]); ByteDigits(p[1]); ByteDigits(p[2]); ByteDigits(p[3]);
  }

  lemma InetNtoaFits(p: InAddrBytes, size: int)
    requires size >= 16
    ensures InetNtoa(p, size) == Some(DottedQuad(p))
  {
    DottedQuadLength(p);
  }

  /** Splits text at every '.', keeping empty fields. */
  function SplitDots(s: string): (r: seq<string>)
    ensures |r| >= 1
  {
    if s == [] then [""]
    else if s[0] == '.' then [""] + SplitDots(s[1..])
    else var rest := SplitDots(s[1..]); [[s[0]] + rest[0]] + rest[1..]
  }

  lemma {:induction false} SplitDotsField(a: string, rest: string)
    requires '.' !in a
    ensures SplitDots(a + "." + rest) == [a] + SplitDots(rest)
  {
    if a == [] {
      assert a + "." + rest == ['.'] + rest;
      assert (['.'] + rest)[1..] == rest;
    } else {
      assert (a + "." + rest)[1..] == a[1..] + "." + rest;
      SplitDotsField(a[1..], rest);
      assert [a[0]] + a[1..] == a;
    }
  }

  lemma {:induction false} SplitDotsLast(a: string)
    requires '.' !in a
    ensures SplitDots(a) == [a]
  {
    if a != [] {
      SplitDotsLast(a[1..]);
      assert [a[0]] + a[1..] == a;
    }
  }

  /** A decimal field of a dotted quad: one to three digits, no leading zero, at most 255. */
  function ParseByte(f: string): Option<byte> {
    if 1 <= |f| <= 3 && AllDigits(f) && (|f| == 1 || f[0] != '0') && ParseDigits(f) < 256
    then Some(ParseDigits(f)) else None
  }

  /** Reads canonical dotted-decimal text back into the four address bytes: the partner of
      `DottedQuad`. (`sp_inet_aton` accepts more spellings than this.) */
  function ParseDottedQuad(s: string): Option<InAddrBytes> {
    var f := SplitDots(s);
    if |f| != 4 then None
    else match (ParseByte(f[0]), ParseByte(f[1]), ParseByte(f[2]), ParseByte(f[3]))
      case (Some(a), Some(b), Some(c), Some(d)) => Some([a, b, c, d])
      case _ => None
  }

  lemma ParseByteDigits(b: byte)
    ensures ParseByte(FormatInt(b)) == Some(b)
  {
    ByteDigits(b);
    ParseDecimalDigits(b);
  }

  /** Round trip: the address text `inetNtoa` writes names exactly the address it was given. */
  lemma ParseInetNtoa(p: InAddrBytes)
    ensures ParseDottedQuad(DottedQuad(p)) == Some(p)
  {
    var f0, f1, f2, f3 := FormatInt(p[0]), FormatInt(p[1]), FormatInt(p[2]), FormatInt(p[3]);
    ByteDigits(p[0]); ByteDigits(p[1]); ByteDigits(p[2]); ByteDigits(p[3]);
    var r2 := f2 + "." + f3;
    var r1 := f1 + "." + r2;
    var h0, h1 := f0 + ".", f1 + ".";
    AppendAssoc(h0, f1, ".");
    AppendAssoc(h0, h1, f2);
    AppendAssoc(h0, h1 + f2, ".");
    AppendAssoc(h1, f2, ".");
    AppendAssoc(h0, h1 + (f2 + "."), f3);
    AppendAssoc(h1, f2 + ".", f3);
    assert DottedQuad(p) == f0 + "." + r1;
    SplitDotsLast(f3);
    SplitDotsField(f2, f3);
    SplitDotsField(f1, r2);
    SplitDotsField(f0, r1);
    assert SplitDots(DottedQuad(p)) == [f0, f1, f2, f3];
    ParseByteDigits(p[0]); ParseByteDigits(p[1]); ParseByteDigits(p[2]); ParseByteDigits(p[3]);
    assert [p[0], p[1], p[2], p[3]] == p;
  }

  /** `O_NONBLOCK` as Linux defines it (octal 04000). */
  const O_NONBLOCK: bv32 := 0x800

  /** `flags | O_NONBLOCK`: sets the non-blocking bit and keeps every other bit. */
  function WithNonblock(flags: bv32): (r: bv32)
    ensures r & O_NONBLOCK == O_NONBLOCK
    ensures r & !O_NONBLOCK == flags & !O_NONBLOCK
  {
    flags | O_NONBLOCK
  }

  /** `flags & ~O_NONBLOCK`: clears the non-blocking bit and keeps every other bit. */
  function WithoutNonblock(flags: bv32): (r: bv32)
    ensures r & O_NONBLOCK == 0
    ensures r & !O_NONBLOCK == flags & !O_NONBLOCK
  {
    flags & !O_NONBLOCK
  }

  /** Setting then clearing the bit restores flags that had it clear, and the other way round. */
  lemma NonblockRoundTrip(flags: bv32)
    ensures flags & O_NONBLOCK == 0 ==> WithoutNonblock(WithNonblock(flags)) == flags
    ensures flags & O_NONBLOCK != 0 ==> WithNonblock(WithoutNonblock(flags)) == flags
  {
  }

  /** `setNonblock(fd)`: `getfl` is what `fcntl(fd, F_GETFL)` returned and `setfl` what
      `fcntl(fd, F_SETFL, flags)` returns. Besides the status it yields the flags passed to
      `F_SETFL`, or `None` when that call is not made. */
  method SetNonblock(getfl: int32, setfl: int32) returns (ret: int, setTo: Option<bv32>)
    ensures getfl < 0 ==> ret == getfl && setTo == None
    ensures getfl >= 0 ==> setTo == Some(WithNonblock(getfl as bv32))
    ensures getfl >= 0 ==> ret == (if setfl < 0 then -1 else 0)
  {
    var flags := getfl;
    if flags < 0 {
      return flags, None;
    }
    var bits := flags as bv32 | O_NONBLOCK;
    setTo := Some(bits);
    if setfl < 0 {
      return -1, setTo;
    }
    ret := 0;
  }

  /** `setBlock(fd)`, the same chain with the bit cleared. */
  method SetBlock(getfl: int32, setfl: int32) returns (ret: int, setTo: Option<bv32>)
    ensures getfl < 0 ==> ret == getfl && setTo == None
    ensures getfl >= 0 ==> setTo == Some(WithoutNonblock(getfl as bv32))
    ensures getfl >= 0 ==> ret == (if setfl < 0 then -1 else 0)
  {
    var flags := getfl;
    if flags < 0 {
      return flags, None;
    }
    var bits := flags as bv32 & !O_NONBLOCK;
    setTo := Some(bits);
    if setfl < 0 {
      return -1, setTo;
    }
    ret := 0;
  }

  /** What `tcpListen` gets back from each system call it may make. */
  datatype ListenOutcomes = ListenOutcomes(
    socketFd: int,                // socket(): a descriptor, or negative on failure
    getfl: int32,                 // fcntl(F_GETFL) inside setNonblock
    setfl: int32,                 // fcntl(F_SETFL) inside setNonblock
    reuseAddr: int,               // setsockopt(SO_REUSEADDR): negative on failure
    noDelay: int,                 // setsockopt(TCP_NODELAY): negative on failure
    aton: Option<InAddrBytes>,    // sp_inet_aton(ip): the address, or None when it returns 0
    bindResult: int,              // bind(): negative on failure
    listenResult: int)            // listen(): negative on failure

  const ListenBacklog: int := 1024

  /** INADDR_ANY, the wildcard address 0.0.0.0. */
  const InAddrAny: InAddrBytes := [0, 0, 0, 0]

  datatype SockAddr = SockAddr(port: int, addr: InAddrBytes)

  /** The calls `tcpListen` makes, in the order it makes them. */
  datatype Stage =
    | OpenSocket
    | SetNonblocking
    | ReuseAddr
    | NoDelay
    | ConvertAddress
    | Bind(addr: SockAddr)
    | Listen(backlog: int)
    | CloseSocket(fd: int)

  function Rank(s: Stage): nat {
    match s
    case OpenSocket => 0
    case SetNonblocking => 1
    case ReuseAddr => 2
    case NoDelay => 3
    case ConvertAddress => 4
    case Bind(_) => 5
    case Listen(_) => 6
    case CloseSocket(_) => 7
  }

  /** Each kind of call is made at most once, in the order of the source. */
  predicate InStageOrder(calls: seq<Stage>) {
    |calls| <= 1 ||
    (InStageOrder(calls[..|calls| - 1]) && Rank(calls[|calls| - 2]) < Rank(calls[|calls| - 1]))
  }

  /** Stage order means strictly increasing ranks, so no stage is called twice. */
  lemma {:induction false} InStageOrderIncreasing(calls: seq<Stage>, i: nat, j: nat)
    requires InStageOrder(calls) && i < j < |calls|
    ensures Rank(calls[i]) < Rank(calls[j])
  {
    var init := calls[..|calls| - 1];
    if j < |calls| - 1 {
      InStageOrderIncreasing(init, i, j);
      assert init[i] == calls[i] && init[j] == calls[j];
    } else if i < j - 1 {
      InStageOrderIncreasing(init, i, j - 1);
      assert init[i] == calls[i] && init[j - 1] == calls[j - 1];
    }
  }

  /** Some call of the given stage rank was made. */
  predicate Called(calls: seq<Stage>, rank: nat) {
    calls != [] && (Rank(calls[|calls| - 1]) == rank || Called(calls[..|calls| - 1], rank))
  }

  /** A guarded stage: the call `x` is made after `calls` only when `guard` holds. */
  function Then(calls: seq<Stage>, guard: bool, x: Stage): seq<Stage> {
    if guard then calls + [x] else calls
  }

  /** A guarded stage adds exactly its own call to the stages called. */
  lemma ThenCalled(calls: seq<Stage>, guard: bool, x: Stage, r: nat)
    ensures Called(Then(calls, guard, x), r) <==> Called(calls, r) || (guard && r == Rank(x))
  {
    if guard {
      assert (calls + [x])[..|calls|] == calls;
    }
  }

  /** A guarded stage of a later rank keeps the calls in stage order. */
  lemma ThenOrder(calls: seq<Stage>, guard: bool, x: Stage)
    requires calls != [] && InStageOrder(calls) && Rank(calls[|calls| - 1]) < Rank(x)
    ensures Then(calls, guard, x) != [] && InStageOrder(Then(calls, guard, x))
    ensures Rank(Then(calls, guard, x)[|Then(calls, guard, x)| - 1]) <= Rank(x)
  {
    if guard {
      assert (calls + [x])[..|calls|] == calls;
    }
  }

  // The success of each guarded group of stages, and whether the later ones are reached.
  predicate SocketOk(o: ListenOutcomes) { o.socketFd >= 0 }
  predicate ModeOk(o: ListenOutcomes, blocking: int) { blocking != 0 || (o.getfl >= 0 && o.setfl >= 0) }
  predicate OptionsOk(o: ListenOutcomes) { o.reuseAddr >= 0 && o.noDelay >= 0 }
  /** `'\0' != *ip`: the C string `ip` is not empty, its first character is not the
      terminator (the end of the sequence reads as the terminator). */
  predicate AddressGiven(ip: string) { |ip| != 0 && ip[0] != '\0' }

  predicate AddressOk(o: ListenOutcomes, ip: string) { !AddressGiven(ip) || o.aton.Some? }

  predicate ReachesOptions(o: ListenOutcomes, blocking: int) { SocketOk(o) && ModeOk(o, blocking) }
  predicate ReachesAddress(o: ListenOutcomes, blocking: int) { ReachesOptions(o, blocking) && OptionsOk(o) }
  predicate ReachesBind(o: ListenOutcomes, ip: string, blocking: int) {
    ReachesAddress(o, blocking) && AddressOk(o, ip)
  }
  predicate ReachesListen(o: ListenOutcomes, ip: string, blocking: int) {
    ReachesBind(o, ip, blocking) && o.bindResult >= 0
  }
  predicate ListenSucceeds(o: ListenOutcomes, ip: string, blocking: int) {
    ReachesListen(o, ip, blocking) && o.listenResult >= 0
  }

  /** The address `bind` gets: the port as a 16-bit `htons` value, and INADDR_ANY for an
      empty ip or the converted address otherwise. */
  function BindAddress(o: ListenOutcomes, ip: string, port: int): SockAddr
    requires AddressOk(o, ip)
  {
    SockAddr(port % 0x1_0000, if !AddressGiven(ip) then InAddrAny else o.aton.value)
  }

  /** Which guarded stages of `tcpListen` run. */
  datatype StageGuards = StageGuards(
    nonblock: bool, options: bool, convert: bool, bind: bool, listen: bool, close: bool)

  /** The calls up to the socket options: the socket is always opened, and both socket
      options share one guard. */
  function EarlyStages(g: StageGuards): seq<Stage> {
    Then(Then(Then([OpenSocket], g.nonblock, SetNonblocking), g.options, ReuseAddr), g.options, NoDelay)
  }

  /** The calls from the address conversion on, after `calls`; the close comes last. */
  function LaterStages(calls: seq<Stage>, g: StageGuards, addr: SockAddr, fd: int): seq<Stage> {
    Then(Then(Then(Then(calls, g.convert, ConvertAddress), g.bind, Bind(addr)),
              g.listen, Listen(ListenBacklog)), g.close, CloseSocket(fd))
  }

  /** The calls made when the guards are `g`. */
  function GuardedCalls(g: StageGuards, addr: SockAddr, fd: int): seq<Stage> {
    LaterStages(EarlyStages(g), g, addr, fd)
  }

  lemma EarlyStagesCalled(g: StageGuards, r: nat)
    ensures Called(EarlyStages(g), r) <==> (r == 0 || (g.nonblock && r == 1) || (g.options && (r == 2 || r == 3)))
  {
    var c0 := [OpenSocket];
    assert Called(c0, r) <==> r == 0 by { assert c0[..0] == []; }
    var c1 := Then(c0, g.nonblock, SetNonblocking);
    ThenCalled(c0, g.nonblock, SetNonblocking, r);
    var c2 := Then(c1, g.options, ReuseAddr);
    ThenCalled(c1, g.options, ReuseAddr, r);
    ThenCalled(c2, g.options, NoDelay, r);
  }

  lemma LaterStagesCalled(calls: seq<Stage>, g: StageGuards, addr: SockAddr, fd: int, r: nat)
    ensures Called(LaterStages(calls, g, addr, fd), r) <==>
              (Called(calls, r) || (g.convert && r == 4) || (g.bind && r == 5) || (g.listen && r == 6)
               || (g.close && r == 7))
  {
    var c4 := Then(calls, g.convert, ConvertAddress);
    ThenCalled(calls, g.convert, ConvertAddress, r);
    var c5 := Then(c4, g.bind, Bind(addr));
    ThenCalled(c4, g.bind, Bind(addr), r);
    var c6 := Then(c5, g.listen, Listen(ListenBacklog));
    ThenCalled(c5, g.listen, Listen(ListenBacklog), r);
    ThenCalled(c6, g.close, CloseSocket(fd), r);
  }

  /** A stage rank is called exactly when its guard holds (the socket is always opened). */
  lemma GuardedCallsCalled(g: StageGuards, addr: SockAddr, fd: int, r: nat)
    ensures Called(GuardedCalls(g, addr, fd), r) <==>
              (r == 0 || (g.nonblock && r == 1) || (g.options && (r == 2 || r == 3))
               || (g.convert && r == 4) || (g.bind && r == 5) || (g.listen && r == 6) || (g.close && r == 7))
  {
    EarlyStagesCalled(g, r);
    LaterStagesCalled(EarlyStages(g), g, addr, fd, r);
  }

  /** The first three guarded stages keep the calls in order and end below `ConvertAddress`. */
  lemma EarlyStagesOrdered(g: StageGuards)
    ensures EarlyStages(g) != [] && InStageOrder(EarlyStages(g))
    ensures Rank(EarlyStages(g)[|EarlyStages(g)| - 1]) <= 3
  {
    var c0 := [OpenSocket];
    var c1 := Then(c0, g.nonblock, SetNonblocking);
    ThenOrder(c0, g.nonblock, SetNonblocking);
    var c2 := Then(c1, g.options, ReuseAddr);
    ThenOrder(c1, g.options, ReuseAddr);
    ThenOrder(c2, g.options, NoDelay);
  }

  /** The last four guarded stages, appended to calls in order that end below `ConvertAddress`. */
  lemma LaterStagesOrdered(calls: seq<Stage>, g: StageGuards, addr: SockAddr, fd: int)
    requires calls != [] && InStageOrder(calls) && Rank(calls[|calls| - 1]) <= 3
    ensures InStageOrder(LaterStages(calls, g, addr, fd))
  {
    var c4 := Then(calls, g.convert, ConvertAddress);
    ThenOrder(calls, g.convert, ConvertAddress);
    var c5 := Then(c4, g.bind, Bind(addr));
    ThenOrder(c4, g.bind, Bind(addr));
    var c6 := Then(c5, g.listen, Listen(ListenBacklog));
    ThenOrder(c5, g.listen, Listen(ListenBacklog));
    ThenOrder(c6, g.close, CloseSocket(fd));
  }

  lemma GuardedCallsOrdered(g: StageGuards, addr: SockAddr, fd: int)
    ensures InStageOrder(GuardedCalls(g, addr, fd))
  {
    EarlyStagesOrdered(g);
    LaterStagesOrdered(EarlyStages(g), g, addr, fd);
  }

  /** The guards of `tcpListen`: each stage runs only while every earlier one succeeded,
      except that `TCP_NODELAY` is tried even after `SO_REUSEADDR` failed; the socket is
      closed on failure only when it was created. */
  function Guards(o: ListenOutcomes, ip: string, blocking: int): (g: StageGuards)
    ensures g.listen ==> g.bind
    ensures g.bind ==> g.options && (g.convert || !AddressGiven(ip))
    ensures g.convert ==> g.options
    ensures g.options ==> SocketOk(o) && (g.nonblock || blocking != 0)
    ensures g.close <==> SocketOk(o) && !(g.listen && o.listenResult >= 0)
  {
    StageGuards(
      nonblock := SocketOk(o) && blocking == 0,
      options := ReachesOptions(o, blocking),
      convert := ReachesAddress(o, blocking) && AddressGiven(ip),
      bind := ReachesBind(o, ip, blocking),
      listen := ReachesListen(o, ip, blocking),
      close := !ListenSucceeds(o, ip, blocking) && SocketOk(o))
  }

  /** The calls `tcpListen` makes, in order. */
  function ListenCalls(o: ListenOutcomes, ip: string, blocking: int, port: int): (calls: seq<Stage>)
    ensures calls != [] && calls[0] == OpenSocket
    ensures !SocketOk(o) ==> calls == [OpenSocket]
    ensures SocketOk(o) ==>
      calls[|calls| - 1] == (if ListenSucceeds(o, ip, blocking) then Listen(ListenBacklog) else CloseSocket(o.socketFd))
  {
    GuardedCalls(Guards(o, ip, blocking),
                 if AddressOk(o, ip) then BindAddress(o, ip, port) else SockAddr(0, InAddrAny),
                 o.socketFd)
  }

  /** Which stages `tcpListen` runs: once a stage fails no later guarded stage runs, the
      non-blocking step needs `blocking == 0`, and the socket is closed iff the call failed
      after creating it. */
  lemma ListenCallsStages(o: ListenOutcomes, ip: string, blocking: int, port: int)
    ensures Called(ListenCalls(o, ip, blocking, port), 0)
    ensures Called(ListenCalls(o, ip, blocking, port), 1) <==> SocketOk(o) && blocking == 0
    ensures Called(ListenCalls(o, ip, blocking, port), 2) <==> ReachesOptions(o, blocking)
    ensures Called(ListenCalls(o, ip, blocking, port), 3) <==> ReachesOptions(o, blocking)
    ensures Called(ListenCalls(o, ip, blocking, port), 4) <==> ReachesAddress(o, blocking) && AddressGiven(ip)
    ensures Called(ListenCalls(o, ip, blocking, port), 5) <==> ReachesBind(o, ip, blocking)
    ensures Called(ListenCalls(o, ip, blocking, port), 6) <==> ReachesListen(o, ip, blocking)
    ensures Called(ListenCalls(o, ip, blocking, port), 7) <==> !ListenSucceeds(o, ip, blocking) && SocketOk(o)
  {
    var g := Guards(o, ip, blocking);
    var addr := if AddressOk(o, ip) then BindAddress(o, ip, port) else SockAddr(0, InAddrAny);
    GuardedCallsCalled(g, addr, o.socketFd, 0);
    GuardedCallsCalled(g, addr, o.socketFd, 1);
    GuardedCallsCalled(g, addr, o.socketFd, 2);
    GuardedCallsCalled(g, addr, o.socketFd, 3);
    GuardedCallsCalled(g, addr, o.socketFd, 4);
    GuardedCallsCalled(g, addr, o.socketFd, 5);
    GuardedCallsCalled(g, addr, o.socketFd, 6);
    GuardedCallsCalled(g, addr, o.socketFd, 7);
  }

  /** `tcpListen` makes each kind of call at most once, in the order of the source. */
  lemma ListenCallsOrdered(o: ListenOutcomes, ip: string, blocking: int, port: int)
    ensures InStageOrder(ListenCalls(o, ip, blocking, port))
  {
    GuardedCallsOrdered(Guards(o, ip, blocking),
                        if AddressOk(o, ip) then BindAddress(o, ip, port) else SockAddr(0, InAddrAny),
                        o.socketFd);
  }

  /** `tcpListen(ip, port, &fd, blocking)`. Returns the status, the value written to `*fd`
      (`None` when `*fd` is left alone) and the calls made. */
  method TcpListen(ip: string, port: int, blocking: int, o: ListenOutcomes)
    returns (ret: int, fd: Option<int>, calls: seq<Stage>)
    ensures ret == 0 || ret == -1
    ensures ret == 0 <==> ListenSucceeds(o, ip, blocking)
    ensures fd == (if ret == 0 then Some(o.socketFd) else None)
    ensures calls == ListenCalls(o, ip, blocking, port)
  {
    ret := 0;
    calls := [OpenSocket];
    var listenFd := o.socketFd;
    if listenFd < 0 {
      ret := -1;
    }

    if ret == 0 && blocking == 0 {
      calls := calls + [SetNonblocking];
      var r, _ := SetNonblock(o.getfl, o.setfl);
      if r < 0 {
        ret := -1;
      }
    }
    assert ret == 0 <==> ReachesOptions(o, blocking);

    if ret == 0 {
      calls := calls + [ReuseAddr];
      if o.reuseAddr < 0 {
        ret := -1;
      }
      calls := calls + [NoDelay];
      if o.noDelay < 0 {
        ret := -1;
      }
    }
    assert ret == 0 <==> ReachesAddress(o, blocking);

    var host := InAddrAny;
    if ret == 0 {
      if |ip| != 0 && ip[0] != '\0' {
        calls := calls + [ConvertAddress];
        if o.aton.None? {
          ret := -1;
        } else {
          host := o.aton.value;
        }
      }
    }
    assert ret == 0 <==> ReachesBind(o, ip, blocking);

    if ret == 0 {
      calls := calls + [Bind(SockAddr(port % 0x1_0000, host))];
      if o.bindResult < 0 {
        ret := -1;
      }
    }

    if ret == 0 {
      calls := calls + [Listen(ListenBacklog)];
      if o.listenResult < 0 {
        ret := -1;
      }
    }

    if ret != 0 && listenFd >= 0 {
      calls := calls + [CloseSocket(listenFd)];
    }

    fd := None;
    if ret == 0 {
      fd := Some(listenFd);
    }
  }
}
