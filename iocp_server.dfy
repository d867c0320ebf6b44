/** `SP_IocpServer` (trunk/spserver/spiocpserver.cpp): the server's settings and flags, and
    `start`, which opens the listening socket, registers it, starts the accept thread and
    then, until shut down, hands every finished read to the worker executor and every
    finished write to the single-threaded "act" executor. The completion port, the accept
    thread and what the IOCP callback collects in one wait are inputs chosen by the caller. */
module IocpServer {
  import opened Wrappers
  import opened IOUtils

  /** A finished request, ready for a worker thread (an `SP_Task`). */
  datatype Task = Task(id: nat)

  /** A message whose sending finished (an `SP_Message`). */
  datatype Message = Message(id: nat)

  /** The application's completion handler; it records the messages it was told about. */
  class CompletionHandler {
    var completed: seq<Message>

    constructor ()
      ensures completed == []
    {
      completed := [];
    }

    method CompletionMessage(msg: Message)
      modifies this
      ensures completed == old(completed) + [msg]
    {
      completed := completed + [msg];
    }
  }

  /** The two-pointer block `start` allocates for `outputCompleted`: the handler, then the message. */
  datatype OutputArg = OutputArg(handler: CompletionHandler, msg: Message)

  /** What an executor is asked to run. */
  datatype ExecutorTask =
    | Work(task: Task)                        // execute( task )
    | OutputCompletedCall(arg: OutputArg)     // execute( outputCompleted, arg )

  /** An `SP_Executor`; only the order of what it is given is modelled. */
  class Executor {
    const threads: int
    const name: string
    var submitted: seq<ExecutorTask>

    constructor (threads: int, name: string)
      ensures this.threads == threads && this.name == name && submitted == []
    {
      this.threads := threads;
      this.name := name;
      submitted := [];
    }

    method Execute(t: ExecutorTask)
      modifies this
      ensures submitted == old(submitted) + [t]
    {
      submitted := submitted + [t];
    }
  }

  /** `outputCompleted(arg)`: passes the message to the handler once. */
  method OutputCompleted(arg: OutputArg)
    modifies arg.handler
    ensures arg.handler.completed == old(arg.handler.completed) + [arg.msg]
  {
    arg.handler.CompletionMessage(arg.msg);
  }

  /** What one `SP_IocpEventCallback::eventLoop` wait leaves behind: the tasks and messages
      it queued, and whether `shutdown()` was called meanwhile (by the signal handler). */
  datatype Round = Round(inputs: seq<Task>, outputs: seq<Message>, shutdownRequested: bool)

  /** The part of `SP_IocpEventArg` that `start` reads: the timeout and the two result queues. */
  class IocpEventArg {
    const timeout: int
    var inputQueue: seq<Task>
    var outputQueue: seq<Message>

    constructor (timeout: int)
      ensures this.timeout == timeout && inputQueue == [] && outputQueue == []
    {
      this.timeout := timeout;
      inputQueue := [];
      outputQueue := [];
    }

    /** One wait of the IOCP callback: it appends what completed to the two queues. */
    method Collect(round: Round)
      modifies this
      ensures inputQueue == old(inputQueue) + round.inputs
      ensures outputQueue == old(outputQueue) + round.outputs
    {
      inputQueue := inputQueue + round.inputs;
      outputQueue := outputQueue + round.outputs;
    }

    /** `getInputResultQueue()->pop()`: the oldest task. */
    method PopInput() returns (t: Task)
      requires inputQueue != []
      modifies this
      ensures t == old(inputQueue)[0] && inputQueue == old(inputQueue)[1..]
      ensures outputQueue == old(outputQueue)
    {
      t := inputQueue[0];
      inputQueue := inputQueue[1..];
    }

    /** `getOutputResultQueue()->pop()`: the oldest message. */
    method PopOutput() returns (m: Message)
      requires outputQueue != []
      modifies this
      ensures m == old(outputQueue)[0] && outputQueue == old(outputQueue)[1..]
      ensures inputQueue == old(inputQueue)
    {
      m := outputQueue[0];
      outputQueue := outputQueue[1..];
    }
  }

  /** The worker submissions for the given tasks: one per task, in queue order. */
  function WorkItems(tasks: seq<Task>): (r: seq<ExecutorTask>)
    ensures |r| == |tasks|
    ensures forall i :: 0 <= i < |tasks| ==> r[i] == Work(tasks[i])
  {
    if tasks == [] then [] else WorkItems(tasks[..|tasks| - 1]) + [Work(tasks[|tasks| - 1])]
  }

  /** The act submissions for the given messages: one per message, in queue order, each
      paired with the one completion handler. */
  function OutputItems(handler: CompletionHandler, msgs: seq<Message>): (r: seq<ExecutorTask>)
    ensures |r| == |msgs|
    ensures forall i :: 0 <= i < |msgs| ==> r[i] == OutputCompletedCall(OutputArg(handler, msgs[i]))
  {
    if msgs == [] then []
    else OutputItems(handler, msgs[..|msgs| - 1]) + [OutputCompletedCall(OutputArg(handler, msgs[|msgs| - 1]))]
  }

  lemma WorkItemsAppend(a: seq<Task>, b: seq<Task>)
    ensures WorkItems(a + b) == WorkItems(a) + WorkItems(b)
  {
  }

  lemma OutputItemsAppend(handler: CompletionHandler, a: seq<Message>, b: seq<Message>)
    ensures OutputItems(handler, a + b) == OutputItems(handler, a) + OutputItems(handler, b)
  {
  }

  /** Every task and every message the given rounds queued, in order. */
  function AllInputs(rounds: seq<Round>): seq<Task> {
    if rounds == [] then [] else AllInputs(rounds[..|rounds| - 1]) + rounds[|rounds| - 1].inputs
  }

  function AllOutputs(rounds: seq<Round>): seq<Message> {
    if rounds == [] then [] else AllOutputs(rounds[..|rounds| - 1]) + rounds[|rounds| - 1].outputs
  }

  /** The submissions after one more round are those before it, then that round's. */
  lemma WorkStep(base: seq<ExecutorTask>, rounds: seq<Round>, i: nat)
    requires i < |rounds|
    ensures base + WorkItems(AllInputs(rounds[..i])) + WorkItems(rounds[i].inputs)
            == base + WorkItems(AllInputs(rounds[..i + 1]))
  {
    assert rounds[..i + 1][..i] == rounds[..i];
    WorkItemsAppend(AllInputs(rounds[..i]), rounds[i].inputs);
  }

  lemma OutputStep(base: seq<ExecutorTask>, handler: CompletionHandler, rounds: seq<Round>, i: nat)
    requires i < |rounds|
    ensures base + OutputItems(handler, AllOutputs(rounds[..i])) + OutputItems(handler, rounds[i].outputs)
            == base + OutputItems(handler, AllOutputs(rounds[..i + 1]))
  {
    assert rounds[..i + 1][..i] == rounds[..i];
    OutputItemsAppend(handler, AllOutputs(rounds[..i]), rounds[i].outputs);
  }

  /** How many rounds `while( 0 == mIsShutdown )` runs when the flag starts clear: every
      round up to and including the first that requests shutdown. */
  function RoundsRun(rounds: seq<Round>): (n: nat)
    ensures n <= |rounds|
    ensures rounds != [] ==> n >= 1
    ensures forall j :: 0 <= j < n - 1 ==> !rounds[j].shutdownRequested
    ensures n < |rounds| ==> rounds[n - 1].shutdownRequested
  {
    if rounds == [] then 0
    else if rounds[0].shutdownRequested then 1
    else 1 + RoundsRun(rounds[1..])
  }

  /** The count of rounds is determined by where the first shutdown request falls: a loop
      that stops after the first request, or after all rounds when none comes, ran exactly
      `RoundsRun` of them. */
  lemma {:induction false} RoundsRunUnique(rounds: seq<Round>, n: nat)
    requires n <= |rounds|
    requires forall j :: 0 <= j < n - 1 ==> !rounds[j].shutdownRequested
    requires n == |rounds| || (n >= 1 && rounds[n - 1].shutdownRequested)
    ensures RoundsRun(rounds) == n
  {
    if rounds != [] {
      if rounds[0].shutdownRequested {
        assert n == 1;
      } else {
        assert n >= 1;
        var rest := rounds[1..];
        forall j | 0 <= j < n - 2 ensures !rest[j].shutdownRequested {
          assert !rounds[j + 1].shutdownRequested;
        }
        if n - 1 < |rest| {
          assert n >= 2;
          assert rest[n - 2] == rounds[n - 1];
        }
        RoundsRunUnique(rest, n - 1);
      }
    }
  }

  /** The shutdown flag after the loop: unchanged when it was already set (no round runs),
      otherwise set exactly when the last round run requested shutdown. */
  function ShutdownAfter(flag: int, rounds: seq<Round>): int {
    if flag != 0 then flag
    else if RoundsRun(rounds) >= 1 && rounds[RoundsRun(rounds) - 1].shutdownRequested then 1
    else 0
  }

  /** What `start` returns: the listen helper's failure, -1 when registering the socket with
      the completion port or creating the accept thread fails, otherwise 0. */
  function StartResult(listenOk: bool, registered: bool, acceptThread: int): (r: int)
    ensures r == 0 <==> listenOk && registered && acceptThread == 0
    ensures r == 0 || r == -1
  {
    if !listenOk then -1
    else if !registered then -1
    else if acceptThread != 0 then -1
    else 0
  }

  /** The server's fields, as one value. */
  datatype Settings = Settings(
    bindIP: string, port: int, isShutdown: int, isRunning: int, timeout: int,
    maxThreads: int, reqQueueSize: int, maxConnections: int, refusedMsg: string)

  /** The settings of a server built with `bindIP` and `port`. */
  function Defaults(bindIP: string, port: int): (s: Settings)
    ensures s.bindIP == bindIP && s.port == port
    ensures s.isShutdown == 0 && s.isRunning == 0
    ensures PositiveCounts(s)
  {
    Settings(bindIP, port, 0, 0, 600, 64, 128, 256, "System busy, try again later.")
  }

  /** A setter argument replaces the current value only when it is positive. */
  function PositiveOr(arg: int, current: int): (r: int)
    ensures r == arg || r == current
    ensures r > 0 <==> arg > 0 || current > 0
  {
    if arg > 0 then arg else current
  }

  /** The counts a server is configured with stay positive. */
  predicate PositiveCounts(s: Settings) {
    s.timeout > 0 && s.maxThreads > 0 && s.reqQueueSize > 0 && s.maxConnections > 0
  }

  /** A positive-or-keep update keeps a positive value positive, whatever the argument: a
      zero or negative argument is ignored, and applying the same update twice is applying
      it once. */
  lemma PositiveOrKeeps(arg: int, current: int)
    requires current > 0
    ensures PositiveOr(arg, current) > 0
    ensures arg <= 0 ==> PositiveOr(arg, current) == current
    ensures arg > 0 ==> PositiveOr(arg, current) == arg
    ensures PositiveOr(arg, PositiveOr(arg, current)) == PositiveOr(arg, current)
  {
  }

  class Server {
    var bindIP: string
    var port: int
    var isShutdown: int
    var isRunning: int
    var timeout: int
    var maxThreads: int
    var reqQueueSize: int
    var maxConnections: int
    var refusedMsg: string

    function State(): Settings
      reads this
    {
      Settings(bindIP, port, isShutdown, isRunning, timeout, maxThreads, reqQueueSize,
               maxConnections, refusedMsg)
    }

    /** `SP_IocpServer( bindIP, port, handlerFactory )`. */
    constructor (bindIP: string, port: int)
      ensures State() == Defaults(bindIP, port)
      ensures PositiveCounts(State())
    {
      this.bindIP := bindIP;
      this.port := port;
      isShutdown := 0;
      isRunning := 0;
      timeout := 600;
      maxThreads := 64;
      reqQueueSize := 128;
      maxConnections := 256;
      refusedMsg := "System busy, try again later.";
    }

    method SetTimeout(timeout: int)
      modifies this
      ensures State() == old(State()).(timeout := PositiveOr(timeout, old(this.timeout)))
      ensures old(PositiveCounts(State())) ==> PositiveCounts(State())
    {
      this.timeout := if timeout > 0 then timeout else this.timeout;
    }

    method SetMaxThreads(maxThreads: int)
      modifies this
      ensures State() == old(State()).(maxThreads := PositiveOr(maxThreads, old(this.maxThreads)))
      ensures old(PositiveCounts(State())) ==> PositiveCounts(State())
    {
      this.maxThreads := if maxThreads > 0 then maxThreads else this.maxThreads;
    }

    method SetMaxConnections(maxConnections: int)
      modifies this
      ensures State() == old(State()).(maxConnections := PositiveOr(maxConnections, old(this.maxConnections)))
      ensures old(PositiveCounts(State())) ==> PositiveCounts(State())
    {
      this.maxConnections := if maxConnections > 0 then maxConnections else this.maxConnections;
    }

    /** The size changes only when positive; the refusal message is always replaced. */
    method SetReqQueueSize(reqQueueSize: int, refusedMsg: string)
      modifies this
      ensures State() == old(State()).(reqQueueSize := PositiveOr(reqQueueSize, old(this.reqQueueSize)),
                                       refusedMsg := refusedMsg)
      ensures old(PositiveCounts(State())) ==> PositiveCounts(State())
    {
      this.reqQueueSize := if reqQueueSize > 0 then reqQueueSize else this.reqQueueSize;
      this.refusedMsg := refusedMsg;
    }

    /** Sets the flag; calling it again changes nothing more. */
    method Shutdown()
      modifies this
      ensures State() == old(State()).(isShutdown := 1)
    {
      isShutdown := 1;
    }

    method IsRunning() returns (r: int)
      ensures r == isRunning
    {
      r := isRunning;
    }

    /** Empties both result queues: every task goes to the worker executor and every
        message, paired with the completion handler, to the act executor, oldest first. */
    static method DispatchResults(eventArg: IocpEventArg, work: Executor, act: Executor,
                                  handler: CompletionHandler)
      requires work != act
      modifies eventArg, work, act
      ensures eventArg.inputQueue == [] && eventArg.outputQueue == []
      ensures work.submitted == old(work.submitted) + WorkItems(old(eventArg.inputQueue))
      ensures act.submitted == old(act.submitted) + OutputItems(handler, old(eventArg.outputQueue))
    {
      ghost var inputs := eventArg.inputQueue;
      ghost var k := 0;
      while eventArg.inputQueue != []
        invariant 0 <= k <= |inputs| && eventArg.inputQueue == inputs[k..]
        invariant eventArg.outputQueue == old(eventArg.outputQueue)
        invariant work.submitted == old(work.submitted) + WorkItems(inputs[..k])
        invariant act.submitted == old(act.submitted)
        decreases |eventArg.inputQueue|
      {
        var task := eventArg.PopInput();
        work.Execute(Work(task));
        assert inputs[..k + 1][..k] == inputs[..k];
        k := k + 1;
      }
      assert inputs[..k] == inputs;

      ghost var msgs := eventArg.outputQueue;
      ghost var m := 0;
      ghost var afterInputs := work.submitted;
      while eventArg.outputQueue != []
        invariant 0 <= m <= |msgs| && eventArg.outputQueue == msgs[m..]
        invariant eventArg.inputQueue == []
        invariant work.submitted == afterInputs
        invariant act.submitted == old(act.submitted) + OutputItems(handler, msgs[..m])
        decreases |eventArg.outputQueue|
      {
        var msg := eventArg.PopOutput();
        act.Execute(OutputCompletedCall(OutputArg(handler, msg)));
        assert msgs[..m + 1][..m] == msgs[..m];
        m := m + 1;
      }
      assert msgs[..m] == msgs;
    }

    /** One pass of the event loop: the callback's wait, with a shutdown request arriving
        during it, then both result queues dispatched. */
    method ServeRound(eventArg: IocpEventArg, work: Executor, act: Executor,
                      handler: CompletionHandler, round: Round)
      requires work != act
      requires eventArg.inputQueue == [] && eventArg.outputQueue == []
      modifies this, eventArg, work, act
      ensures State() == old(State()).(isShutdown := if round.shutdownRequested then 1 else old(isShutdown))
      ensures eventArg.inputQueue == [] && eventArg.outputQueue == []
      ensures work.submitted == old(work.submitted) + WorkItems(round.inputs)
      ensures act.submitted == old(act.submitted) + OutputItems(handler, round.outputs)
    {
      eventArg.Collect(round);
      if round.shutdownRequested {
        Shutdown();
      }
      DispatchResults(eventArg, work, act, handler);
    }

    /** The event loop of `start`: while the shutdown flag is clear, one callback wait, then
        both result queues dispatched. */
    method ServeRounds(eventArg: IocpEventArg, work: Executor, act: Executor,
                       handler: CompletionHandler, rounds: seq<Round>) returns (ran: nat)
      requires work != act
      requires eventArg.inputQueue == [] && eventArg.outputQueue == []
      modifies this, eventArg, work, act
      ensures ran == (if old(isShutdown) != 0 then 0 else RoundsRun(rounds))
      ensures State() == old(State()).(isShutdown := ShutdownAfter(old(isShutdown), rounds))
      ensures eventArg.inputQueue == [] && eventArg.outputQueue == []
      ensures work.submitted == old(work.submitted) + WorkItems(AllInputs(rounds[..ran]))
      ensures act.submitted == old(act.submitted) + OutputItems(handler, AllOutputs(rounds[..ran]))
    {
      ghost var flag := isShutdown;
      var i := 0;
      while isShutdown == 0 && i < |rounds|
        invariant 0 <= i <= |rounds|
        invariant flag != 0 ==> i == 0 && isShutdown == flag
        invariant flag == 0 ==> forall j :: 0 <= j < i - 1 ==> !rounds[j].shutdownRequested
        invariant flag == 0 && i >= 1 ==>
                    isShutdown == (if rounds[i - 1].shutdownRequested then 1 else 0)
        invariant flag == 0 && i == 0 ==> isShutdown == 0
        invariant State() == old(State()).(isShutdown := isShutdown)
        invariant eventArg.inputQueue == [] && eventArg.outputQueue == []
        invariant work.submitted == old(work.submitted) + WorkItems(AllInputs(rounds[..i]))
        invariant act.submitted == old(act.submitted) + OutputItems(handler, AllOutputs(rounds[..i]))
        decreases |rounds| - i
      {
        ServeRound(eventArg, work, act, handler, rounds[i]);
        WorkStep(old(work.submitted), rounds, i);
        OutputStep(old(act.submitted), handler, rounds, i);
        i := i + 1;
      }
      ran := i;
      if flag == 0 {
        RoundsRunUnique(rounds, i);
      }
    }

    /** `start()`: the listen outcomes, whether `CreateIoCompletionPort` accepts the socket,
        what `pthread_create` returns for the accept thread, and the rounds of the event
        loop are inputs. Returns the status, the calls `tcpListen` made, the descriptor
        `sp_close` is called on once the loop exits (`None` when it is not: on the early
        returns, and while the rounds given run out with the shutdown flag still clear, so
        that the loop has not exited), how many rounds ran, what each executor was given
        and the completion handler those submissions carry. */
    method Start(o: ListenOutcomes, registered: bool, acceptThread: int, rounds: seq<Round>)
      returns (ret: int, listenCalls: seq<Stage>, closed: Option<int>, ran: nat,
               work: seq<ExecutorTask>, act: seq<ExecutorTask>, handler: CompletionHandler?)
      modifies this
      ensures ret == StartResult(ListenSucceeds(o, old(bindIP), 0), registered, acceptThread)
      ensures listenCalls == ListenCalls(o, old(bindIP), 0, old(port))
      ensures closed == (if ret == 0 && ShutdownAfter(old(isShutdown), rounds) != 0 then Some(o.socketFd) else None)
      ensures ret != 0 ==> ran == 0 && work == [] && act == [] && handler == null
                           && State() == old(State())
      ensures ret == 0 ==> handler != null
                           && ran == (if old(isShutdown) != 0 then 0 else RoundsRun(rounds))
                           && work == WorkItems(AllInputs(rounds[..ran]))
                           && act == OutputItems(handler, AllOutputs(rounds[..ran]))
                           && State() == old(State()).(isShutdown := ShutdownAfter(old(isShutdown), rounds))
    {
      closed, ran, work, act, handler := None, 0, [], [], null;
      var listenFd: Option<int>;
      ret, listenFd, listenCalls := TcpListen(bindIP, port, 0, o);
      if ret == 0 {
        var eventArg := new IocpEventArg(timeout);
        if !registered {
          return -1, listenCalls, closed, ran, work, act, handler;
        }
        ret := acceptThread;
        if ret != 0 {
          return -1, listenCalls, closed, ran, work, act, handler;
        }
        var actExecutor := new Executor(1, "act");
        var workerExecutor := new Executor(maxThreads, "work");
        handler := new CompletionHandler();
        ran := ServeRounds(eventArg, workerExecutor, actExecutor, handler, rounds);
        work, act := workerExecutor.submitted, actExecutor.submitted;
        if isShutdown != 0 {
          closed := listenFd;
        }
      }
    }

    /** `eventLoop(server)`: the running flag is 1 while `start` runs and 0 once it has
        returned, on an early error or after the loop saw the shutdown flag; while the
        rounds given run out with the flag clear, `start` is still in its loop and the flag
        stays 1. Returns what `start` returned (or will return) and the flag as `start` saw it. */
    method EventLoop(o: ListenOutcomes, registered: bool, acceptThread: int, rounds: seq<Round>)
      returns (ret: int, runningDuringStart: int)
      modifies this
      ensures runningDuringStart == 1
      ensures ret == StartResult(ListenSucceeds(o, old(bindIP), 0), registered, acceptThread)
      ensures ret != 0 ==> State() == old(State()).(isRunning := 0)
      ensures ret == 0 ==>
                State() == old(State()).(isRunning := if ShutdownAfter(old(isShutdown), rounds) != 0 then 0 else 1,
                                         isShutdown := ShutdownAfter(old(isShutdown), rounds))
    {
      isRunning := 1;
      runningDuringStart := isRunning;
      var r, _, _, _, _, _, _ := Start(o, registered, acceptThread, rounds);
      ret := r;
      if ret != 0 || isShutdown != 0 {
        isRunning := 0;
      }
    }
  }

  /** The echo server's `main`: port 3333, any address, and its four setter calls; the
      timeout argument 0 is ignored, so 600 stays. */
  method ConfigureEchoServer() returns (server: Server)
    ensures fresh(server)
    ensures server.State() == Settings("", 3333, 0, 0, 600, 4, 10000, 10000, "Byebye\r\n")
  {
    server := new Server("", 3333);
    server.SetTimeout(0);
    server.SetMaxThreads(4);
    server.SetReqQueueSize(10000, "Byebye\r\n");
    server.SetMaxConnections(10000);
  }
}
