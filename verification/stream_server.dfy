/**
  The protocol as the mutable object it is in the program: connections, tasks, activeCalls and
  activeLock, updated in place by one method for each atomic step.

  `history` records the steps performed.  `Valid` ties the fields to the state that run leads to, so
  every method's `ensures` says which state of the transition system the fields hold afterwards, and
  everything proved of runs holds of the object.
 */
module StreamServer {
  import opened Options
  import opened CallProtocol
  import opened CallInvariants
  import opened CallProgress

  lemma {:induction false} EntriesInRange(cfg: Config, acts: seq<Action>)
    requires Legal(cfg, acts)
    ensures forall id :: id in After(cfg, acts).active ==> After(cfg, acts).active[id] < |After(cfg, acts).tasks|
  {
    Reachable(cfg, acts);
  }

  /** The measure of the tasks when no call handler makes a further choice. */
  function WorkLeft(tasks: seq<Task>): nat {
    Measure(tasks, seq(|tasks|, _ => 0))
  }

  /** No connection opens and no call handler makes a choice. */
  ghost predicate NoChoices(acts: seq<Action>) {
    forall a :: a in acts ==> !a.OpenConn? && !IsHandlerChoice(a)
  }

  lemma NoChoicesOn(early: seq<Action>, middle: seq<Action>, late: seq<Action>)
    requires early <= middle <= late && NoChoices(middle[|early|..]) && NoChoices(late[|middle|..])
    ensures NoChoices(late[|early|..])
  {
    assert late[|early|..] == middle[|early|..] + late[|middle|..];
  }

  ghost predicate TasksOnly(acts: seq<Action>) {
    forall a :: a in acts ==> IsTaskStep(a)
  }

  ghost predicate AllFinished(tasks: seq<Task>) {
    forall t :: 0 <= t < |tasks| ==> Finished(tasks[t])
  }

  lemma {:induction false} DrainStep(cfg: Config, acts: seq<Action>, t: nat)
    requires Legal(cfg, acts) && AllExited(After(cfg, acts))
    requires t < |After(cfg, acts).tasks| && !Finished(After(cfg, acts).tasks[t])
    ensures After(cfg, acts).tasks[t].conn < |After(cfg, acts).conns|
    ensures var s := After(cfg, acts); var a := ProgressStep(s, t);
      && Enabled(s, a) && IsTaskStep(a) && !IsHandlerChoice(a)
      && var s' := Next(cfg, s, a);
         && AllExited(s') && |s'.conns| == |s.conns| && |s'.tasks| == |s.tasks|
         && WorkLeft(s'.tasks) < WorkLeft(s.tasks)
  {
    GoodReachable(cfg, acts);
    var s := After(cfg, acts);
    QuietIsFinished(cfg, s, t);
    ProgressStepEnabled(cfg, s, t);
    StepLowersMeasure(cfg, s, seq(|s.tasks|, _ => 0), ProgressStep(s, t));
    ExitedStep(cfg, s, ProgressStep(s, t));
    TaskStepLoops(cfg, s, ProgressStep(s, t));
  }

  lemma {:induction false} AllFinishedDrained(cfg: Config, acts: seq<Action>)
    requires Legal(cfg, acts)
    requires AllFinished(After(cfg, acts).tasks)
    ensures Drained(After(cfg, acts))
  {
    GoodReachable(cfg, acts);
    FinishedIsDrained(cfg, After(cfg, acts));
  }

  lemma OtherLoopsStay(cfg: Config, s: State, a: Action)
    requires IsConnAction(a) && Enabled(s, a)
    ensures |Next(cfg, s, a).conns| == |s.conns|
    ensures forall d :: 0 <= d < |s.conns| && d != a.c ==> Next(cfg, s, a).conns[d].loop == s.conns[d].loop
  {
  }

  class Server {
    const cfg: Config
    var conns: seq<Conn>
    var tasks: seq<Task>
    var activeCalls: map<string, nat>
    var activeLock: Option<nat>
    ghost var history: seq<Action>

    function View(): State
      reads this
    {
      State(conns, tasks, activeCalls, activeLock)
    }

    ghost predicate Valid()
      reads this
    {
      Legal(cfg, history) && View() == After(cfg, history)
    }

    constructor (cfg: Config)
      ensures Valid() && this.cfg == cfg && history == []
    {
      this.cfg := cfg;
      conns, tasks, activeCalls, activeLock, history := [], [], map[], None, [];
    }

    /** Extends the recorded run by the step the fields have just made. */
    ghost method Record(a: Action)
      requires Legal(cfg, history) && Enabled(After(cfg, history), a)
      requires View() == Next(cfg, After(cfg, history), a)
      modifies this`history
      ensures Valid() && history == old(history) + [a]
    {
      Extend(cfg, history, a);
      history := history + [a];
    }

    // ---------- Connections and their read loops ----------

    method Connect()
      requires Valid() && Enabled(View(), OpenConn)
      modifies this
      ensures Valid() && history == old(history) + [OpenConn]
    {
      conns := conns + [NEW_CONN];
      Record(OpenConn);
    }

    /** The context the connection was created under is cancelled. */
    method ParentCancelled(c: nat)
      requires Valid() && Enabled(View(), ParentCancels(c))
      modifies this
      ensures Valid() && history == old(history) + [ParentCancels(c)]
    {
      CancelContext(c);
      Record(ParentCancels(c));
    }

    /** readMessage spawns its reader goroutine and enters its select. */
    method BeginRead(c: nat)
      requires Valid() && Enabled(View(), StartRead(c))
      modifies this
      ensures Valid() && history == old(history) + [StartRead(c)]
    {
      var n := conns[c];
      n := n.(loop := Selecting(|n.readers|), readers := n.readers + [Reading]);
      conns := conns[c := n];
      Record(StartRead(c));
    }

    method FinishReading(c: nat, k: nat, res: ReadResult)
      requires Valid() && Enabled(View(), ReaderGets(c, k, res))
      modifies this
      ensures Valid() && history == old(history) + [ReaderGets(c, k, res)]
    {
      conns := conns[c := conns[c].(readers := conns[c].readers[k := Holding(res)])];
      Record(ReaderGets(c, k, res));
    }

    method TakeResult(c: nat)
      requires Valid() && Enabled(View(), LoopReceives(c))
      modifies this
      ensures Valid() && history == old(history) + [LoopReceives(c)]
    {
      var n := conns[c];
      var res := n.readers[n.loop.reader].held;
      n := n.(readers := n.readers[n.loop.reader := Delivered(res)]);
      conns := conns[c := n.(loop := Got(res))];
      Record(LoopReceives(c));
    }

    method LeaveOnDone(c: nat)
      requires Valid() && Enabled(View(), LoopSeesDone(c))
      modifies this
      ensures Valid() && history == old(history) + [LoopSeesDone(c)]
    {
      conns := conns[c := conns[c].(loop := Broken)];
      Record(LoopSeesDone(c));
    }

    /** Breaks on an error or a close, skips a frame it cannot decode, and starts a task for any other. */
    method HandleResult(c: nat)
      requires Valid() && Enabled(View(), LoopHandles(c))
      modifies this
      ensures Valid() && history == old(history) + [LoopHandles(c)]
    {
      var n := conns[c];
      if !n.loop.res.Data? {
        conns := conns[c := n.(loop := Broken)];
      } else if TypeOf(cfg, n.loop.res.frame).None? {
        conns := conns[c := n.(loop := Idle)];
      } else {
        var frame := n.loop.res.frame;
        tasks := tasks + [NewTask(c, |n.dispatched|, frame)];
        n := n.(dispatched := n.dispatched + [Dispatch(|tasks| - 1, frame)]);
        conns := conns[c := n.(loop := Idle)];
      }
      Record(LoopHandles(c));
    }

    method CancelLoop(c: nat)
      requires Valid() && Enabled(View(), LoopCancels(c))
      modifies this
      ensures Valid() && history == old(history) + [LoopCancels(c)]
    {
      CancelContext(c);
      conns := conns[c := conns[c].(loop := Closing)];
      Record(LoopCancels(c));
    }

    method CloseSocket(c: nat)
      requires Valid() && Enabled(View(), LoopCloses(c))
      modifies this
      ensures Valid() && history == old(history) + [LoopCloses(c)]
    {
      conns := conns[c := conns[c].(closed := true)];
      conns := conns[c := conns[c].(loop := Exited)];
      Record(LoopCloses(c));
    }

    /** Cancels a connection's context and with it the contexts derived from it. */
    method CancelContext(c: nat)
      requires c < |conns|
      modifies this`conns, this`tasks
      ensures View() == CancelConn(old(View()), c)
    {
      conns := conns[c := conns[c].(cancelled := true)];
      var i := 0;
      ghost var before := tasks;
      while i < |tasks|
        modifies this`tasks
        invariant 0 <= i <= |tasks| == |before|
        invariant forall t :: 0 <= t < i ==> tasks[t] == WithParentCancelled(before[t], c)
        invariant forall t :: i <= t < |tasks| ==> tasks[t] == before[t]
      {
        if tasks[i].conn == c && tasks[i].ctx.Live? {
          tasks := tasks[i := tasks[i].(ctx := Cancelled)];
        }
        i := i + 1;
      }
      assert tasks == CancelDerived(before, c);
    }

    // ---------- The handler goroutine ----------

    /** dispatchMessage: an unknown message type ends the task, a known one starts its handler. */
    method StartHandler(t: nat)
      requires Valid() && Enabled(View(), LookUpHandler(t))
      modifies this
      ensures Valid() && history == old(history) + [LookUpHandler(t)]
    {
      if TypeOf(cfg, tasks[t].frame) == Some(CALL_MESSAGE_TYPE) {
        tasks := tasks[t := tasks[t].(h := Start, w := Recv)];
      } else {
        tasks := tasks[t := tasks[t].(h := NoHandler, w := End)];
      }
      Record(LookUpHandler(t));
    }

    /** The branches of CallDispatcher.Handle before it takes activeLock. */
    method DecodeMessage(t: nat)
      requires Valid() && Enabled(View(), DecodeCall(t))
      modifies this
      ensures Valid() && history == old(history) + [DecodeCall(t)]
    {
      var k := tasks[t];
      if k.frame.call.None? {
        k := k.(h := Returned);
      } else {
        var call := k.frame.call.value;
        if call.callMethod == CANCEL_METHOD {
          k := k.(h := WantLock(CancelCall));
        } else if call.callMethod !in cfg.methods {
          k := k.(h := Sending(KoReply(call.id, UNKNOWN_METHOD), FromUnknown));
        } else {
          k := k.(ctx := if conns[k.conn].cancelled then Cancelled else Live);
          k := k.(h := WantLock(Register));
        }
      }
      tasks := tasks[t := k];
      Record(DecodeCall(t));
    }

    method LockActive(t: nat)
      requires Valid() && Enabled(View(), Lock(t))
      modifies this
      ensures Valid() && history == old(history) + [Lock(t)]
    {
      activeLock := Some(t);
      tasks := tasks[t := tasks[t].(h := InLock(tasks[t].h.want))];
      Record(Lock(t));
    }

    method RegisterCall(t: nat)
      requires Valid() && Enabled(View(), Critical(t))
      requires tasks[t].h == InLock(Register)
      modifies this
      ensures Valid() && history == old(history) + [Critical(t)]
    {
      activeCalls := activeCalls[IdOf(tasks[t]) := t];
      tasks := tasks[t := tasks[t].(h := Leaving(Register))];
      Record(Critical(t));
    }

    method DeregisterCall(t: nat)
      requires Valid() && Enabled(View(), Critical(t))
      requires tasks[t].h == InLock(Deregister)
      modifies this
      ensures Valid() && history == old(history) + [Critical(t)]
    {
      activeCalls := activeCalls - {IdOf(tasks[t])};
      tasks := tasks[t := tasks[t].(h := Leaving(Deregister))];
      Record(Critical(t));
    }

    /** Calls the cancel function it finds and deletes the entry; replies ok in either case. */
    method CancelRegisteredCall(t: nat)
      requires Valid() && Enabled(View(), Critical(t))
      requires tasks[t].h == InLock(CancelCall)
      modifies this
      ensures Valid() && history == old(history) + [Critical(t)]
    {
      var id := IdOf(tasks[t]);
      EntriesInRange(cfg, history);
      if id in activeCalls {
        var v := activeCalls[id];
        tasks := tasks[v := tasks[v].(ctx := Cancelled, aborted := true)];
        activeCalls := activeCalls - {id};
      }
      tasks := tasks[t := tasks[t].(h := Sending(OkReply(id), FromCancel))];
      Record(Critical(t));
    }

    method UnlockActive(t: nat)
      requires Valid() && Enabled(View(), Unlock(t))
      modifies this
      ensures Valid() && history == old(history) + [Unlock(t)]
    {
      activeLock := None;
      if tasks[t].h.left.Register? {
        tasks := tasks[t := tasks[t].(h := Running)];
      } else {
        tasks := tasks[t := tasks[t].(h := Returned)];
      }
      Record(Unlock(t));
    }

    method SendFromHandler(t: nat, msg: Message)
      requires Valid() && Enabled(View(), HandlerSends(t, msg))
      modifies this
      ensures Valid() && history == old(history) + [HandlerSends(t, msg)]
    {
      tasks := tasks[t := tasks[t].(h := Sending(msg, FromHandler))];
      Record(HandlerSends(t, msg));
    }

    method WaitForContext(t: nat)
      requires Valid() && Enabled(View(), HandlerWaits(t))
      modifies this
      ensures Valid() && history == old(history) + [HandlerWaits(t)]
    {
      tasks := tasks[t := tasks[t].(h := Parked)];
      Record(HandlerWaits(t));
    }

    method SendFromEvent(t: nat, msg: Message)
      requires Valid() && Enabled(View(), EventSends(t, msg))
      modifies this
      ensures Valid() && history == old(history) + [EventSends(t, msg)]
    {
      tasks := tasks[t := tasks[t].(h := Sending(msg, FromEvent))];
      Record(EventSends(t, msg));
    }

    method WakeHandler(t: nat)
      requires Valid() && Enabled(View(), HandlerWakes(t))
      modifies this
      ensures Valid() && history == old(history) + [HandlerWakes(t)]
    {
      tasks := tasks[t := tasks[t].(h := Running)];
      Record(HandlerWakes(t));
    }

    method ReturnFromHandler(t: nat)
      requires Valid() && Enabled(View(), HandlerReturns(t))
      modifies this
      ensures Valid() && history == old(history) + [HandlerReturns(t)]
    {
      tasks := tasks[t := tasks[t].(h := WantLock(Deregister))];
      Record(HandlerReturns(t));
    }

    /** A send on reply meets the writer's receive; each goroutine goes on from there. */
    method PassReply(t: nat)
      requires Valid() && Enabled(View(), Rendezvous(t))
      modifies this
      ensures Valid() && history == old(history) + [Rendezvous(t)]
    {
      var k := tasks[t];
      var msg := k.h.msg;
      k := k.(sent := k.sent + [msg], w := WantWrite(msg));
      match k.h.from {
        case FromHandler => k := k.(h := Running);
        case FromEvent => k := k.(h := Parked);
        case FromCancel => k := k.(h := Leaving(CancelCall));
        case FromUnknown => k := k.(h := Returned);
      }
      tasks := tasks[t := k];
      Record(Rendezvous(t));
    }

    method CloseReplyChannel(t: nat)
      requires Valid() && Enabled(View(), CloseReply(t))
      modifies this
      ensures Valid() && history == old(history) + [CloseReply(t)]
    {
      tasks := tasks[t := tasks[t].(h := Closed, closes := tasks[t].closes + 1)];
      Record(CloseReply(t));
    }

    // ---------- The writer goroutine ----------

    method TakeWriteLock(t: nat)
      requires Valid() && Enabled(View(), LockWrite(t))
      modifies this
      ensures Valid() && history == old(history) + [LockWrite(t)]
    {
      var c := tasks[t].conn;
      conns := conns[c := conns[c].(writeLock := Some(t))];
      tasks := tasks[t := tasks[t].(w := Writing(tasks[t].w.pending))];
      Record(LockWrite(t));
    }

    method WriteMessage(t: nat, ok: bool)
      requires Valid() && Enabled(View(), Write(t, ok))
      modifies this
      ensures Valid() && history == old(history) + [Write(t, ok)]
    {
      var c := tasks[t].conn;
      conns := conns[c := conns[c].(wire := conns[c].wire + [Attempt(t, tasks[t].w.current, ok)])];
      if ok {
        tasks := tasks[t := tasks[t].(w := Unlocking)];
      } else {
        tasks := tasks[t := tasks[t].(w := Failing)];
      }
      Record(Write(t, ok));
    }

    method CancelOnWriteError(t: nat)
      requires Valid() && Enabled(View(), CancelAfterFailure(t))
      modifies this
      ensures Valid() && history == old(history) + [CancelAfterFailure(t)]
    {
      tasks := tasks[t := tasks[t].(w := Unlocking)];
      CancelContext(tasks[t].conn);
      Record(CancelAfterFailure(t));
    }

    method ReleaseWriteLock(t: nat)
      requires Valid() && Enabled(View(), UnlockWrite(t))
      modifies this
      ensures Valid() && history == old(history) + [UnlockWrite(t)]
    {
      var c := tasks[t].conn;
      conns := conns[c := conns[c].(writeLock := None)];
      tasks := tasks[t := tasks[t].(w := Recv)];
      Record(UnlockWrite(t));
    }

    method EndWriter(t: nat)
      requires Valid() && Enabled(View(), WriterEnds(t))
      modifies this
      ensures Valid() && history == old(history) + [WriterEnds(t)]
    {
      tasks := tasks[t := tasks[t].(w := End)];
      Record(WriterEnds(t));
    }

    // ---------- Runs ----------

    /** Makes any step that is possible, through the method of the goroutine that takes it. */
    method Perform(a: Action)
      requires Valid() && Enabled(View(), a)
      modifies this
      ensures Valid() && history == old(history) + [a]
    {
      if IsConnAction(a) || a.OpenConn? {
        PerformConn(a);
      } else if IsWriterAction(a) {
        PerformWriter(a);
      } else {
        PerformHandler(a);
      }
    }

    method PerformConn(a: Action)
      requires Valid() && Enabled(View(), a) && (IsConnAction(a) || a.OpenConn?)
      modifies this
      ensures Valid() && history == old(history) + [a]
    {
      match a {
        case OpenConn => Connect();
        case ParentCancels(c) => ParentCancelled(c);
        case StartRead(c) => BeginRead(c);
        case ReaderGets(c, k, res) => FinishReading(c, k, res);
        case LoopReceives(c) => TakeResult(c);
        case LoopSeesDone(c) => LeaveOnDone(c);
        case LoopHandles(c) => HandleResult(c);
        case LoopCancels(c) => CancelLoop(c);
        case LoopCloses(c) => CloseSocket(c);
      }
    }

    method PerformHandler(a: Action)
      requires Valid() && Enabled(View(), a) && IsTaskAction(a) && !IsWriterAction(a)
      modifies this
      ensures Valid() && history == old(history) + [a]
    {
      match a {
        case LookUpHandler(t) => StartHandler(t);
        case DecodeCall(t) => DecodeMessage(t);
        case Lock(t) => LockActive(t);
        case Critical(t) =>
          match tasks[t].h.doing {
            case Register => RegisterCall(t);
            case Deregister => DeregisterCall(t);
            case CancelCall => CancelRegisteredCall(t);
          }
        case Unlock(t) => UnlockActive(t);
        case HandlerSends(t, msg) => SendFromHandler(t, msg);
        case HandlerWaits(t) => WaitForContext(t);
        case EventSends(t, msg) => SendFromEvent(t, msg);
        case HandlerWakes(t) => WakeHandler(t);
        case HandlerReturns(t) => ReturnFromHandler(t);
        case Rendezvous(t) => PassReply(t);
        case CloseReply(t) => CloseReplyChannel(t);
      }
    }

    method PerformWriter(a: Action)
      requires Valid() && Enabled(View(), a) && IsWriterAction(a)
      modifies this
      ensures Valid() && history == old(history) + [a]
    {
      match a {
        case LockWrite(t) => TakeWriteLock(t);
        case Write(t, ok) => WriteMessage(t, ok);
        case CancelAfterFailure(t) => CancelOnWriteError(t);
        case UnlockWrite(t) => ReleaseWriteLock(t);
        case WriterEnds(t) => EndWriter(t);
      }
    }

    /** Once every read loop has exited, brings all tasks to their end, with no choice of a call handler and
        in no more steps than the measure of the state. */
    method Drain()
      requires Valid() && AllExited(View())
      modifies this
      ensures Valid() && AllExited(View()) && Drained(View())
      ensures |conns| == |old(conns)| && |tasks| == |old(tasks)|
      ensures old(history) <= history && |history| <= |old(history)| + WorkLeft(old(tasks))
      ensures NoChoices(history[|old(history)|..]) && TasksOnly(history[|old(history)|..])
    {
      ghost var steps := [];
      var t: nat := Unfinished();
      while t < |tasks|
        invariant Valid() && AllExited(View()) && |conns| == |old(conns)| && |tasks| == |old(tasks)|
        invariant t <= |tasks| && (t < |tasks| ==> !Finished(tasks[t]))
        invariant t == |tasks| ==> AllFinished(tasks)
        invariant history == old(history) + steps && NoChoices(steps) && TasksOnly(steps)
        invariant |steps| + WorkLeft(tasks) <= WorkLeft(old(tasks))
        decreases WorkLeft(tasks)
      {
        var a := AdvanceTask(t);
        steps := steps + [a];
        t := Unfinished();
      }
      AllFinishedDrained(cfg, history);
    }

    /** The first task that has not finished, if there is one. */
    method Unfinished() returns (t: nat)
      ensures t <= |tasks| && (t < |tasks| ==> !Finished(tasks[t]))
      ensures t == |tasks| ==> AllFinished(tasks)
    {
      t := 0;
      while t < |tasks| && Finished(tasks[t])
        invariant t <= |tasks| && forall u :: 0 <= u < t ==> Finished(tasks[u])
      {
        t := t + 1;
      }
    }

    /** A step of task t or of the owner of the lock it waits for. */
    method AdvanceTask(t: nat) returns (a: Action)
      requires Valid() && AllExited(View()) && t < |tasks| && !Finished(tasks[t])
      modifies this
      ensures Valid() && AllExited(View()) && |conns| == |old(conns)| && |tasks| == |old(tasks)|
      ensures history == old(history) + [a] && IsTaskStep(a) && !IsHandlerChoice(a)
      ensures WorkLeft(tasks) < WorkLeft(old(tasks))
    {
      DrainStep(cfg, history, t);
      a := ProgressStep(View(), t);
      Extend(cfg, history, a);
      Perform(a);
    }

    /** Cancels every connection, drives every loop to its exit, and drains. */
    method Shutdown()
      requires Valid()
      modifies this
      ensures Valid() && AllExited(View()) && Drained(View()) && |conns| == |old(conns)|
      ensures old(history) <= history && NoChoices(history[|old(history)|..])
    {
      ghost var before := history;
      for c := 0 to |conns|
        invariant Valid() && |conns| == |old(conns)|
        invariant forall d :: 0 <= d < c ==> conns[d].loop.Exited?
        invariant before <= history && NoChoices(history[|before|..])
      {
        ghost var soFar := history;
        CloseConnection(c);
        NoChoicesOn(before, soFar, history);
      }
      ghost var soFar := history;
      Drain();
      NoChoicesOn(before, soFar, history);
    }

    /** Cancels connection c and drives its loop to the exit; no other loop moves. */
    method CloseConnection(c: nat)
      requires Valid() && c < |conns|
      modifies this
      ensures Valid() && |conns| == |old(conns)| && conns[c].loop.Exited?
      ensures forall d :: 0 <= d < |conns| && d != c ==> conns[d].loop == old(conns)[d].loop
      ensures old(history) <= history && NoChoices(history[|old(history)|..])
      ensures |history| <= |old(history)| + 6
    {
      ghost var steps := [ParentCancels(c)];
      OtherLoopsStay(cfg, View(), ParentCancels(c));
      Extend(cfg, history, ParentCancels(c));
      ParentCancelled(c);
      while !conns[c].loop.Exited?
        invariant Valid() && |conns| == |old(conns)| && conns[c].cancelled
        invariant forall d :: 0 <= d < |conns| && d != c ==> conns[d].loop == old(conns)[d].loop
        invariant history == old(history) + steps && NoChoices(steps)
        invariant |steps| + ExitRank(conns[c].loop) <= 6
        decreases ExitRank(conns[c].loop)
      {
        var a := AdvanceLoop(c);
        steps := steps + [a];
      }
    }

    /** The step of a cancelled connection's loop towards its exit. */
    method AdvanceLoop(c: nat) returns (a: Action)
      requires Valid() && c < |conns| && conns[c].cancelled && !conns[c].loop.Exited?
      modifies this
      ensures Valid() && |conns| == |old(conns)| && conns[c].cancelled
      ensures ExitRank(conns[c].loop) < ExitRank(old(conns)[c].loop)
      ensures forall d :: 0 <= d < |conns| && d != c ==> conns[d].loop == old(conns)[d].loop
      ensures history == old(history) + [a] && !a.OpenConn? && !IsHandlerChoice(a)
    {
      a := ExitStep(conns[c], c);
      ExitStepLowers(cfg, View(), c);
      OtherLoopsStay(cfg, View(), a);
      Extend(cfg, history, a);
      Perform(a);
    }
  }

  /** A new server that has performed any given run: the object can do all that the transition system can. */
  method Replay(cfg: Config, acts: seq<Action>) returns (server: Server)
    requires Legal(cfg, acts)
    ensures fresh(server) && server.Valid() && server.cfg == cfg
    ensures server.history == acts && server.View() == After(cfg, acts)
  {
    server := new Server(cfg);
    for i := 0 to |acts|
      invariant fresh(server) && server.Valid() && server.cfg == cfg && server.history == acts[..i]
    {
      StateAtStep(cfg, acts, i);
      server.Perform(acts[i]);
      assert acts[..i + 1] == acts[..i] + [acts[i]];
    }
    assert acts[..|acts|] == acts;
  }
}
