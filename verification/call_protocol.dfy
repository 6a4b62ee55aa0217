/**
  The websocket RPC call protocol as a transition system.

  Every connection runs one read loop.  A frame the loop can decode starts a task: a handler
  goroutine and a writer goroutine joined by an unbuffered `reply` channel.  All tasks of all
  connections share the call dispatcher's `activeCalls` map and its lock.

  Goroutines interleave at the granularity of one Action.  `Enabled` says when an action may
  happen (a blocked goroutine has no enabled action) and `Next` gives the state it leads to.
 */
module CallProtocol {
  import opened Options

  const CANCEL_METHOD := ".cancel"
  const CALL_MESSAGE_TYPE := "call"
  const UNKNOWN_METHOD := "Unknown method"

  datatype Call = Call(id: string, callMethod: string)

  /** A data frame, seen through its two JSON decodings: `{type}` and, for RPC, `{id, method}`. */
  datatype Frame = Frame(msgType: Option<string>, call: Option<Call>)

  /** What one `conn.ReadMessage` comes back with. */
  datatype ReadResult = Data(frame: Frame) | CloseFrame | Failed

  /** `{id, result: ok}`, `{id, error}`, or whatever a call handler sends. */
  datatype Message = OkReply(id: string) | KoReply(id: string, error: string) | HandlerMessage(body: string)

  /** `methods` are the registered call methods.  `decodesIntoPointer` is whether the `{type}` decoding
      is given somewhere to store its result; without it the decoding of every frame fails. */
  datatype Config = Config(methods: set<string>, decodesIntoPointer: bool)

  // ---------- Connections ----------

  /** A reader goroutine: in ReadMessage, then holding its result, then having handed it to the loop. */
  datatype Reader = Reading | Holding(held: ReadResult) | Delivered(given: ReadResult)

  datatype LoopPc =
    | Idle                      // about to call readMessage
    | Selecting(reader: nat)    // in the select of readMessage
    | Got(res: ReadResult)      // readMessage returned a result
    | Broken                    // left the for loop
    | Closing                   // called d.cancel(), about to close the socket
    | Exited

  /** One attempt to write a message of a task to the socket, successful or not. */
  datatype Attempt = Attempt(task: nat, msg: Message, ok: bool)

  datatype Dispatch = Dispatch(task: nat, frame: Frame)

  datatype Conn = Conn(
    loop: LoopPc,
    readers: seq<Reader>,        // one for each call of readMessage
    cancelled: bool,             // the connection's context
    closed: bool,                // the socket
    writeLock: Option<nat>,      // the task whose writer owns msgWriteLock
    wire: seq<Attempt>,          // every write attempt on this socket, in order
    dispatched: seq<Dispatch>)   // the tasks this loop started, in order

  const NEW_CONN := Conn(Idle, [], false, false, None, [], [])

  // ---------- Tasks ----------

  /** The three critical sections of activeLock. */
  datatype Section = Register | Deregister | CancelCall

  /** Who sends: the call handler itself, an event it subscribed to while it waits, `.cancel`, or the
      branch for an unknown method. */
  datatype Sender = FromHandler | FromEvent | FromCancel | FromUnknown

  datatype HandlerPc =
    | NotStarted                 // dispatchMessage has not looked up its handler
    | NoHandler                  // there is none for this message type
    | Start                      // about to decode the call
    | WantLock(want: Section)
    | InLock(doing: Section)     // owns activeLock, map not yet touched
    | Leaving(left: Section)     // owns activeLock, about to unlock
    | Running                    // in the call handler
    | Parked                     // the call handler waits for its context
    | Sending(msg: Message, from: Sender)
    | Returned                   // Handle returned, reply not yet closed
    | Closed                     // reply closed

  datatype WriterPc =
    | Unstarted
    | Recv                       // waits for a message or for the close of reply
    | WantWrite(pending: Message)
    | Writing(current: Message)  // owns msgWriteLock
    | Failing                    // owns msgWriteLock, the write failed, about to call d.cancel()
    | Unlocking                  // owns msgWriteLock, about to unlock
    | End

  /** The context `context.WithCancel` derives for a call. */
  datatype CallContext = Absent | Live | Cancelled

  datatype Task = Task(
    conn: nat,
    slot: nat,                   // its position among the tasks of its connection
    frame: Frame,
    h: HandlerPc,
    w: WriterPc,
    ctx: CallContext,
    aborted: bool,               // a .cancel found this call in activeCalls
    sent: seq<Message>,          // messages received from its handler over reply
    closes: nat)                 // how many times reply was closed

  datatype State = State(
    conns: seq<Conn>,
    tasks: seq<Task>,
    active: map<string, nat>,    // activeCalls: the cancel function of a task, by call ID
    lock: Option<nat>)           // the task whose handler owns activeLock

  const INIT := State([], [], map[], None)

  datatype Kind = Undecodable | CancelKind | UnknownKind | PlainKind

  /** The branch `CallDispatcher.Handle` takes for a frame. */
  function KindOf(cfg: Config, frame: Frame): Kind {
    match frame.call
    case None => Undecodable
    case Some(call) =>
      if call.callMethod == CANCEL_METHOD then CancelKind
      else if call.callMethod in cfg.methods then PlainKind
      else UnknownKind
  }

  function TypeOf(cfg: Config, frame: Frame): Option<string> {
    if cfg.decodesIntoPointer then frame.msgType else None
  }

  /** The call ID of a task; the empty ID where the frame is no call. */
  function IdOf(k: Task): string {
    if k.frame.call.Some? then k.frame.call.value.id else ""
  }

  predicate HoldsLock(h: HandlerPc) {
    h.InLock? || h.Leaving? || (h.Sending? && h.from.FromCancel?)
  }

  predicate HoldsWriteLock(w: WriterPc) {
    w.Writing? || w.Failing? || w.Unlocking?
  }

  /** Between the insertion of a call into activeCalls and its own deletion from it. */
  predicate InFlight(h: HandlerPc) {
    || h == Leaving(Register)
    || h.Running?
    || h.Parked?
    || (h.Sending? && (h.from.FromHandler? || h.from.FromEvent?))
    || h == WantLock(Deregister)
    || h == InLock(Deregister)
  }

  predicate Finished(k: Task) {
    (k.h.Closed? || k.h.NoHandler?) && k.w.End?
  }

  // ---------- Actions ----------

  datatype Action =
    | OpenConn
    | ParentCancels(c: nat)
    | StartRead(c: nat)
    | ReaderGets(c: nat, reader: nat, res: ReadResult)
    | LoopReceives(c: nat)
    | LoopSeesDone(c: nat)
    | LoopHandles(c: nat)
    | LoopCancels(c: nat)
    | LoopCloses(c: nat)
    | LookUpHandler(t: nat)
    | DecodeCall(t: nat)
    | Lock(t: nat)
    | Critical(t: nat)
    | Unlock(t: nat)
    | HandlerSends(t: nat, msg: Message)
    | HandlerWaits(t: nat)
    | EventSends(t: nat, msg: Message)
    | HandlerWakes(t: nat)
    | HandlerReturns(t: nat)
    | Rendezvous(t: nat)
    | CloseReply(t: nat)
    | LockWrite(t: nat)
    | Write(t: nat, ok: bool)
    | CancelAfterFailure(t: nat)
    | UnlockWrite(t: nat)
    | WriterEnds(t: nat)

  predicate IsConnAction(a: Action) {
    || a.ParentCancels? || a.StartRead? || a.ReaderGets? || a.LoopReceives? || a.LoopSeesDone?
    || a.LoopHandles? || a.LoopCancels? || a.LoopCloses?
  }

  predicate IsTaskAction(a: Action) {
    !a.OpenConn? && !IsConnAction(a)
  }

  /** A step a task's own goroutines can take without an outside event. */
  predicate IsTaskStep(a: Action) {
    IsTaskAction(a) && !a.EventSends?
  }

  predicate Enabled(s: State, a: Action) {
    if a.OpenConn? then true
    else if IsConnAction(a) then a.c < |s.conns| && ConnEnabled(s.conns[a.c], a)
    else a.t < |s.tasks| && s.tasks[a.t].conn < |s.conns| && TaskEnabled(s, s.tasks[a.t], a)
  }

  predicate ConnEnabled(n: Conn, a: Action)
    requires IsConnAction(a)
  {
    match a
    case ParentCancels(_) => true
    case StartRead(_) => n.loop.Idle?
    case ReaderGets(_, k, _) => k < |n.readers| && n.readers[k].Reading?
    case LoopReceives(_) => n.loop.Selecting? && n.loop.reader < |n.readers| && n.readers[n.loop.reader].Holding?
    case LoopSeesDone(_) => n.loop.Selecting? && n.cancelled
    case LoopHandles(_) => n.loop.Got?
    case LoopCancels(_) => n.loop.Broken?
    case LoopCloses(_) => n.loop.Closing?
  }

  /** The task's own side of an action; the locks are the only other thing it can wait for. */
  predicate LocallyEnabled(k: Task, a: Action)
    requires IsTaskAction(a)
  {
    match a
    case LookUpHandler(_) => k.h.NotStarted?
    case DecodeCall(_) => k.h.Start?
    case Lock(_) => k.h.WantLock?
    case Critical(_) => k.h.InLock?
    case Unlock(_) => k.h.Leaving?
    case HandlerSends(_, _) => k.h.Running?
    case HandlerWaits(_) => k.h.Running?
    case EventSends(_, _) => k.h.Parked?
    case HandlerWakes(_) => k.h.Parked? && k.ctx.Cancelled?
    case HandlerReturns(_) => k.h.Running?
    case Rendezvous(_) => k.h.Sending? && k.w.Recv?
    case CloseReply(_) => k.h.Returned?
    case LockWrite(_) => k.w.WantWrite?
    case Write(_, _) => k.w.Writing?
    case CancelAfterFailure(_) => k.w.Failing?
    case UnlockWrite(_) => k.w.Unlocking?
    case WriterEnds(_) => k.h.Closed? && k.w.Recv?
  }

  predicate TaskEnabled(s: State, k: Task, a: Action)
    requires IsTaskAction(a) && k.conn < |s.conns|
  {
    && LocallyEnabled(k, a)
    && (a.Lock? ==> s.lock.None?)
    && (a.LockWrite? ==> s.conns[k.conn].writeLock.None?)
  }

  function Next(cfg: Config, s: State, a: Action): State
    requires Enabled(s, a)
  {
    if a.OpenConn? then s.(conns := s.conns + [NEW_CONN])
    else if IsConnAction(a) then ConnNext(cfg, s, a)
    else TaskNext(cfg, s, a)
  }

  // ---------- The read loop ----------

  function ConnNext(cfg: Config, s: State, a: Action): State
    requires IsConnAction(a) && Enabled(s, a)
  {
    var n := s.conns[a.c];
    var s' := PutConn(s, a.c, LoopNext(cfg, n, |s.tasks|, a));
    if a.ParentCancels? || a.LoopCancels? then
      s'.(tasks := CancelDerived(s.tasks, a.c))
    else if a.LoopHandles? && StartsTask(cfg, n.loop.res) then
      s'.(tasks := s.tasks + [NewTask(a.c, |n.dispatched|, n.loop.res.frame)])
    else s'
  }

  predicate StartsTask(cfg: Config, res: ReadResult) {
    res.Data? && TypeOf(cfg, res.frame).Some?
  }

  /** What an action of the read loop, of a reader, or of the parent context does to the connection;
      t is the index of the task it starts, if it starts one. */
  function LoopNext(cfg: Config, n: Conn, t: nat, a: Action): Conn
    requires IsConnAction(a) && ConnEnabled(n, a)
  {
    match a
    case ParentCancels(_) => n.(cancelled := true)
    case StartRead(_) => n.(loop := Selecting(|n.readers|), readers := n.readers + [Reading])
    case ReaderGets(_, k, res) => n.(readers := n.readers[k := Holding(res)])
    case LoopReceives(_) =>
      var k, res := n.loop.reader, n.readers[n.loop.reader].held;
      n.(loop := Got(res), readers := n.readers[k := Delivered(res)])
    case LoopSeesDone(_) => n.(loop := Broken)
    case LoopHandles(_) =>
      if !n.loop.res.Data? then n.(loop := Broken)
      else if StartsTask(cfg, n.loop.res) then
        n.(loop := Idle, dispatched := n.dispatched + [Dispatch(t, n.loop.res.frame)])
      else n.(loop := Idle)
    case LoopCancels(_) => n.(loop := Closing, cancelled := true)
    case LoopCloses(_) => n.(loop := Exited, closed := true)
  }

  function NewTask(c: nat, slot: nat, frame: Frame): Task {
    Task(c, slot, frame, NotStarted, Unstarted, Absent, false, [], 0)
  }

  /** Cancelling a connection's context cancels every context derived from it. */
  function CancelConn(s: State, c: nat): State
    requires c < |s.conns|
  {
    s.(conns := s.conns[c := s.conns[c].(cancelled := true)], tasks := CancelDerived(s.tasks, c))
  }

  function CancelDerived(tasks: seq<Task>, c: nat): (r: seq<Task>)
    ensures |r| == |tasks|
    ensures forall i :: 0 <= i < |tasks| ==> r[i] == WithParentCancelled(tasks[i], c)
  {
    seq(|tasks|, i requires 0 <= i < |tasks| => WithParentCancelled(tasks[i], c))
  }

  function WithParentCancelled(k: Task, c: nat): Task {
    if k.conn == c && k.ctx.Live? then k.(ctx := Cancelled) else k
  }

  // ---------- The two goroutines of a task ----------

  function TaskNext(cfg: Config, s: State, a: Action): State
    requires IsTaskAction(a) && Enabled(s, a)
  {
    var t := a.t;
    var k := s.tasks[t];
    var n := s.conns[k.conn];
    if a.Critical? then CriticalNext(s, t)
    else
      var s' := Put(s, t, if IsWriterAction(a) then WriterNext(k, a) else HandlerNext(cfg, k, n.cancelled, a));
      match a
      case Lock(_) => s'.(lock := Some(t))
      case Unlock(_) => s'.(lock := None)
      case LockWrite(_) => PutConn(s', k.conn, n.(writeLock := Some(t)))
      case Write(_, ok) => PutConn(s', k.conn, n.(wire := n.wire + [Attempt(t, k.w.current, ok)]))
      case CancelAfterFailure(_) => CancelConn(s', k.conn)
      case UnlockWrite(_) => PutConn(s', k.conn, n.(writeLock := None))
      case _ => s'
  }

  predicate IsWriterAction(a: Action) {
    a.LockWrite? || a.Write? || a.CancelAfterFailure? || a.UnlockWrite? || a.WriterEnds?
  }

  /** What an action of the handler goroutine, outside the map operations, does to its own task. */
  function HandlerNext(cfg: Config, k: Task, parentCancelled: bool, a: Action): Task
    requires IsTaskAction(a) && !IsWriterAction(a) && !a.Critical? && LocallyEnabled(k, a)
  {
    match a
    case LookUpHandler(_) =>
      if TypeOf(cfg, k.frame) == Some(CALL_MESSAGE_TYPE) then k.(h := Start, w := Recv)
      else k.(h := NoHandler, w := End)
    case DecodeCall(_) =>
      (match KindOf(cfg, k.frame)
       case Undecodable => k.(h := Returned)
       case CancelKind => k.(h := WantLock(CancelCall))
       case UnknownKind => k.(h := Sending(KoReply(IdOf(k), UNKNOWN_METHOD), FromUnknown))
       case PlainKind => k.(h := WantLock(Register), ctx := if parentCancelled then Cancelled else Live))
    case Lock(_) => k.(h := InLock(k.h.want))
    case Unlock(_) => k.(h := if k.h.left.Register? then Running else Returned)
    case HandlerSends(_, msg) => k.(h := Sending(msg, FromHandler))
    case HandlerWaits(_) => k.(h := Parked)
    case EventSends(_, msg) => k.(h := Sending(msg, FromEvent))
    case HandlerWakes(_) => k.(h := Running)
    case HandlerReturns(_) => k.(h := WantLock(Deregister))
    case Rendezvous(_) => k.(h := AfterSend(k.h.from), w := WantWrite(k.h.msg), sent := k.sent + [k.h.msg])
    case CloseReply(_) => k.(h := Closed, closes := k.closes + 1)
  }

  /** What an action of the writer goroutine does to its own task. */
  function WriterNext(k: Task, a: Action): Task
    requires IsWriterAction(a) && LocallyEnabled(k, a)
  {
    match a
    case LockWrite(_) => k.(w := Writing(k.w.pending))
    case Write(_, ok) => k.(w := if ok then Unlocking else Failing)
    case CancelAfterFailure(_) => k.(w := Unlocking)
    case UnlockWrite(_) => k.(w := Recv)
    case WriterEnds(_) => k.(w := End)
  }

  function Put(s: State, t: nat, k: Task): State
    requires t < |s.tasks|
  {
    s.(tasks := s.tasks[t := k])
  }

  function PutConn(s: State, c: nat, n: Conn): State
    requires c < |s.conns|
  {
    s.(conns := s.conns[c := n])
  }

  function AfterSend(from: Sender): HandlerPc {
    match from
    case FromHandler => Running
    case FromEvent => Parked
    case FromCancel => Leaving(CancelCall)
    case FromUnknown => Returned
  }

  /** The operation on activeCalls that a handler makes while it owns activeLock. */
  function CriticalNext(s: State, t: nat): State
    requires t < |s.tasks| && s.tasks[t].h.InLock?
  {
    var k := s.tasks[t];
    var id := IdOf(k);
    match k.h.doing
    case Register => Put(s, t, k.(h := Leaving(Register))).(active := s.active[id := t])
    case Deregister => Put(s, t, k.(h := Leaving(Deregister))).(active := s.active - {id})
    case CancelCall =>
      var s' := if id in s.active then AbortEntry(s, id) else s;
      Put(s', t, s'.tasks[t].(h := Sending(OkReply(id), FromCancel)))
  }

  /** Calls the cancel function found under an ID and deletes the entry. */
  function AbortEntry(s: State, id: string): State
    requires id in s.active
  {
    s.(tasks := Abort(s.tasks, s.active[id]), active := s.active - {id})
  }

  /** Calls the cancel function of task v. */
  function Abort(tasks: seq<Task>, v: nat): (r: seq<Task>)
    ensures |r| == |tasks|
  {
    if v < |tasks| then tasks[v := tasks[v].(ctx := Cancelled, aborted := true)] else tasks
  }

  // ---------- Runs ----------

  /** The action sequences the system can perform from its initial state. */
  predicate Legal(cfg: Config, acts: seq<Action>)
    decreases |acts|, 0
  {
    acts == [] ||
    (Legal(cfg, acts[..|acts| - 1]) && Enabled(After(cfg, acts[..|acts| - 1]), acts[|acts| - 1]))
  }

  /** The state a run leads to. */
  function After(cfg: Config, acts: seq<Action>): State
    requires Legal(cfg, acts)
    decreases |acts|, 1
  {
    if acts == [] then INIT
    else Next(cfg, After(cfg, acts[..|acts| - 1]), acts[|acts| - 1])
  }

  lemma {:induction false} Extend(cfg: Config, acts: seq<Action>, a: Action)
    requires Legal(cfg, acts) && Enabled(After(cfg, acts), a)
    ensures Legal(cfg, acts + [a])
    ensures After(cfg, acts + [a]) == Next(cfg, After(cfg, acts), a)
  {
    assert (acts + [a])[..|acts|] == acts;
  }

  lemma {:induction false} PrefixLegal(cfg: Config, acts: seq<Action>, n: nat)
    requires Legal(cfg, acts) && n <= |acts|
    ensures Legal(cfg, acts[..n])
  {
    if n == |acts| {
      assert acts[..n] == acts;
    } else {
      var front := acts[..|acts| - 1];
      PrefixLegal(cfg, front, n);
      assert front[..n] == acts[..n];
    }
  }

  /** The state after the first n actions of a run. */
  function StateAt(cfg: Config, acts: seq<Action>, n: nat): State
    requires Legal(cfg, acts) && n <= |acts|
  {
    PrefixLegal(cfg, acts, n);
    After(cfg, acts[..n])
  }

  lemma {:induction false} StateAtStep(cfg: Config, acts: seq<Action>, n: nat)
    requires Legal(cfg, acts) && n < |acts|
    ensures Enabled(StateAt(cfg, acts, n), acts[n])
    ensures StateAt(cfg, acts, n + 1) == Next(cfg, StateAt(cfg, acts, n), acts[n])
  {
    PrefixLegal(cfg, acts, n + 1);
    assert acts[..n + 1][..n] == acts[..n];
  }

  lemma {:induction false} StateAtEnds(cfg: Config, acts: seq<Action>)
    requires Legal(cfg, acts)
    ensures StateAt(cfg, acts, 0) == INIT
    ensures StateAt(cfg, acts, |acts|) == After(cfg, acts)
  {
    assert acts[..|acts|] == acts;
  }
}
