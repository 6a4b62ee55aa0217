/** What reaches the socket: every message a handler had received, once, in order, on its own connection. */
module CallDelivery {
  import opened Options
  import opened CallProtocol
  import opened CallInvariants
  import opened CallCancellation

  /** The messages task t tried to write, read off a socket's record of attempts. */
  function AttemptsOf(wire: seq<Attempt>, t: nat): seq<Message> {
    if wire == [] then []
    else
      var last := wire[|wire| - 1];
      AttemptsOf(wire[..|wire| - 1], t) + (if last.task == t then [last.msg] else [])
  }

  lemma AttemptsExtend(wire: seq<Attempt>, e: Attempt, t: nat)
    ensures AttemptsOf(wire + [e], t) == AttemptsOf(wire, t) + (if e.task == t then [e.msg] else [])
  {
    assert (wire + [e])[..|wire|] == wire;
  }

  lemma {:induction false} NoAttempts(wire: seq<Attempt>, t: nat)
    requires forall i :: 0 <= i < |wire| ==> wire[i].task != t
    ensures AttemptsOf(wire, t) == []
  {
    if wire != [] {
      NoAttempts(wire[..|wire| - 1], t);
    }
  }

  /** The message the writer has received and not yet tried to write. */
  function InHand(w: WriterPc): seq<Message> {
    match w
    case WantWrite(m) => [m]
    case Writing(m) => [m]
    case _ => []
  }

  predicate TaskDelivered(s: State, t: nat)
    requires t < |s.tasks| && s.tasks[t].conn < |s.conns|
  {
    AttemptsOf(s.conns[s.tasks[t].conn].wire, t) + InHand(s.tasks[t].w) == s.tasks[t].sent
  }

  ghost predicate Delivering(s: State)
    requires ConnsInRange(s)
  {
    && (forall t :: 0 <= t < |s.tasks| ==> TaskDelivered(s, t))
    && (forall c, i :: 0 <= c < |s.conns| && 0 <= i < |s.conns[c].wire| ==> OnItsWire(s, c, i))
  }

  predicate OnItsWire(s: State, c: nat, i: nat)
    requires c < |s.conns| && i < |s.conns[c].wire|
  {
    s.conns[c].wire[i].task < |s.tasks| && s.tasks[s.conns[c].wire[i].task].conn == c
  }

  // ---------- One step ----------

  /** Steps that neither hand over nor write a message. */
  lemma QuietStep(cfg: Config, s: State, a: Action)
    requires Inv(cfg, s) && Enabled(s, a) && !a.Rendezvous? && !a.Write?
    ensures var s' := Next(cfg, s, a);
      && |s.tasks| <= |s'.tasks| && |s.conns| <= |s'.conns|
      && (forall t :: 0 <= t < |s.tasks| ==> SameMessages(s.tasks[t], s'.tasks[t]))
      && (forall t :: |s.tasks| <= t < |s'.tasks| ==> s'.tasks[t].sent == [] && s'.tasks[t].w.Unstarted?)
      && (forall c :: 0 <= c < |s.conns| ==> s'.conns[c].wire == s.conns[c].wire)
      && (forall c :: |s.conns| <= c < |s'.conns| ==> s'.conns[c].wire == [])
  {
    if a.Critical? {
      CriticalTasks(s, a.t);
    } else {
      StepTasks(cfg, s, a);
      QuietConns(cfg, s, a);
      if IsTaskAction(a) {
        QuietOwn(cfg, s, a);
      }
    }
  }

  predicate SameMessages(k: Task, k': Task) {
    k'.conn == k.conn && k'.sent == k.sent && InHand(k'.w) == InHand(k.w)
  }

  lemma QuietOwn(cfg: Config, s: State, a: Action)
    requires IsTaskAction(a) && Enabled(s, a) && !a.Critical? && !a.Rendezvous? && !a.Write?
    requires TaskOk(cfg, s.tasks[a.t])
    ensures SameMessages(s.tasks[a.t], OwnNext(cfg, s, a))
  {
  }

  lemma LoopKeepsWire(cfg: Config, n: Conn, t: nat, a: Action)
    requires IsConnAction(a) && ConnEnabled(n, a)
    ensures LoopNext(cfg, n, t, a).wire == n.wire
  {
  }

  lemma TaskStepKeepsWires(cfg: Config, s: State, a: Action)
    requires IsTaskAction(a) && Enabled(s, a) && !a.Critical? && !a.Write?
    ensures |Next(cfg, s, a).conns| == |s.conns|
    ensures forall c :: 0 <= c < |s.conns| ==> Next(cfg, s, a).conns[c].wire == s.conns[c].wire
  {
  }

  lemma QuietConns(cfg: Config, s: State, a: Action)
    requires Enabled(s, a) && !a.Critical? && !a.Write?
    ensures var s' := Next(cfg, s, a);
      && |s.conns| <= |s'.conns|
      && (forall c :: 0 <= c < |s.conns| ==> s'.conns[c].wire == s.conns[c].wire)
      && (forall c :: |s.conns| <= c < |s'.conns| ==> s'.conns[c].wire == [])
  {
    if IsTaskAction(a) {
      TaskStepKeepsWires(cfg, s, a);
    } else if IsConnAction(a) {
      LoopKeepsWire(cfg, s.conns[a.c], |s.tasks|, a);
      assert Next(cfg, s, a).conns == s.conns[a.c := LoopNext(cfg, s.conns[a.c], |s.tasks|, a)];
    }
  }

  lemma DeliveringQuiet(cfg: Config, s: State, a: Action)
    requires Inv(cfg, s) && Delivering(s) && Enabled(s, a) && !a.Rendezvous? && !a.Write?
    requires Inv(cfg, Next(cfg, s, a))
    ensures Delivering(Next(cfg, s, a))
  {
    QuietStep(cfg, s, a);
    var s' := Next(cfg, s, a);
    forall c: nat, i: nat | c < |s'.conns| && i < |s'.conns[c].wire|
      ensures OnItsWire(s', c, i)
    {
      assert OnItsWire(s, c, i);
    }
    forall t | 0 <= t < |s'.tasks|
      ensures TaskDelivered(s', t)
    {
      if t < |s.tasks| {
        assert TaskDelivered(s, t) && SameMessages(s.tasks[t], s'.tasks[t]);
      } else {
        forall i: nat | i < |s'.conns[s'.tasks[t].conn].wire|
          ensures s'.conns[s'.tasks[t].conn].wire[i].task != t
        {
          assert OnItsWire(s, s'.tasks[t].conn, i);
        }
        NoAttempts(s'.conns[s'.tasks[t].conn].wire, t);
      }
    }
  }

  /** A hand-over adds the message to both sides of its task's balance. */
  lemma RendezvousEffect(cfg: Config, s: State, a: Action)
    requires a.Rendezvous? && Enabled(s, a)
    ensures Next(cfg, s, a).conns == s.conns && |Next(cfg, s, a).tasks| == |s.tasks|
    ensures forall t :: 0 <= t < |s.tasks| && t != a.t ==> Next(cfg, s, a).tasks[t] == s.tasks[t]
    ensures var k, k' := s.tasks[a.t], Next(cfg, s, a).tasks[a.t];
      k'.conn == k.conn && InHand(k.w) == [] && k'.sent == k.sent + InHand(k'.w)
  {
  }

  lemma DeliveringRendezvous(cfg: Config, s: State, a: Action)
    requires ConnsInRange(s) && Delivering(s) && Enabled(s, a) && a.Rendezvous?
    requires ConnsInRange(Next(cfg, s, a))
    ensures Delivering(Next(cfg, s, a))
  {
    RendezvousEffect(cfg, s, a);
    RendezvousKeepsBalances(s, Next(cfg, s, a), a.t);
  }

  lemma RendezvousKeepsBalances(s: State, s': State, u: nat)
    requires ConnsInRange(s) && ConnsInRange(s') && Delivering(s)
    requires u < |s.tasks| == |s'.tasks| && s'.conns == s.conns
    requires forall t :: 0 <= t < |s.tasks| && t != u ==> s'.tasks[t] == s.tasks[t]
    requires s'.tasks[u].conn == s.tasks[u].conn
    requires InHand(s.tasks[u].w) == [] && s'.tasks[u].sent == s.tasks[u].sent + InHand(s'.tasks[u].w)
    ensures Delivering(s')
  {
    forall t | 0 <= t < |s'.tasks|
      ensures TaskDelivered(s', t)
    {
      assert TaskDelivered(s, t);
    }
    forall c: nat, i: nat | c < |s'.conns| && i < |s'.conns[c].wire|
      ensures OnItsWire(s', c, i)
    {
      assert OnItsWire(s, c, i);
    }
  }

  lemma WriteEffect(cfg: Config, s: State, a: Action)
    requires a.Write? && Enabled(s, a)
    ensures var k := s.tasks[a.t]; var n := s.conns[k.conn];
      && Next(cfg, s, a).tasks == s.tasks[a.t := k.(w := if a.ok then Unlocking else Failing)]
      && Next(cfg, s, a).conns == s.conns[k.conn := n.(wire := n.wire + [Attempt(a.t, k.w.current, a.ok)])]
  {
  }

  lemma WriterKeepsBalance(cfg: Config, s: State, a: Action)
    requires a.Write? && Enabled(s, a) && TaskDelivered(s, a.t)
    ensures var s' := Next(cfg, s, a);
      a.t < |s'.tasks| && s'.tasks[a.t].conn == s.tasks[a.t].conn < |s'.conns| && TaskDelivered(s', a.t)
  {
    var k := s.tasks[a.t];
    var before := AttemptsOf(s.conns[k.conn].wire, a.t);
    WriteEffect(cfg, s, a);
    AttemptsExtend(s.conns[k.conn].wire, Attempt(a.t, k.w.current, a.ok), a.t);
    assert InHand(k.w) == [k.w.current] && InHand(Next(cfg, s, a).tasks[a.t].w) == [];
    assert before + [k.w.current] + [] == before + [k.w.current];
  }

  lemma OthersKeepBalance(cfg: Config, s: State, a: Action, t: nat)
    requires a.Write? && Enabled(s, a) && t < |s.tasks| && t != a.t
    requires s.tasks[t].conn < |s.conns| && TaskDelivered(s, t)
    ensures var s' := Next(cfg, s, a);
      t < |s'.tasks| && s'.tasks[t].conn == s.tasks[t].conn < |s'.conns| && TaskDelivered(s', t)
  {
    var k := s.tasks[a.t];
    WriteEffect(cfg, s, a);
    AttemptsExtend(s.conns[k.conn].wire, Attempt(a.t, k.w.current, a.ok), t);
    var before := AttemptsOf(s.conns[k.conn].wire, t);
    assert before + [] == before;
  }

  /** A write attempt moves the message from the writer's hand to the wire, whether it succeeds or not. */
  lemma DeliveringWrite(cfg: Config, s: State, a: Action)
    requires Inv(cfg, s) && Delivering(s) && Enabled(s, a) && a.Write?
    requires ConnsInRange(Next(cfg, s, a))
    ensures Delivering(Next(cfg, s, a))
  {
    var s' := Next(cfg, s, a);
    WriteEffect(cfg, s, a);
    forall t | 0 <= t < |s'.tasks|
      ensures TaskDelivered(s', t)
    {
      if t == a.t {
        WriterKeepsBalance(cfg, s, a);
      } else {
        OthersKeepBalance(cfg, s, a, t);
      }
    }
    forall c: nat, i: nat | c < |s'.conns| && i < |s'.conns[c].wire|
      ensures OnItsWire(s', c, i)
    {
      if i < |s.conns[c].wire| {
        assert OnItsWire(s, c, i);
      }
    }
  }

  lemma DeliveringStep(cfg: Config, s: State, a: Action)
    requires Inv(cfg, s) && Delivering(s) && Enabled(s, a)
    requires Inv(cfg, Next(cfg, s, a))
    ensures Delivering(Next(cfg, s, a))
  {
    if a.Rendezvous? {
      DeliveringRendezvous(cfg, s, a);
    } else if a.Write? {
      DeliveringWrite(cfg, s, a);
    } else {
      DeliveringQuiet(cfg, s, a);
    }
  }

  lemma {:induction false} DeliveringReachable(cfg: Config, acts: seq<Action>)
    requires Legal(cfg, acts)
    ensures Inv(cfg, After(cfg, acts)) && Delivering(After(cfg, acts))
  {
    Reachable(cfg, acts);
    if acts != [] {
      DeliveringReachable(cfg, acts[..|acts| - 1]);
      DeliveringStep(cfg, After(cfg, acts[..|acts| - 1]), acts[|acts| - 1]);
    }
  }

  // ---------- Failed writes ----------

  /** A writer that is about to call d.cancel() has just failed to write. */
  predicate FailedLast(s: State, t: nat)
    requires t < |s.tasks| && s.tasks[t].conn < |s.conns|
  {
    var wire := s.conns[s.tasks[t].conn].wire;
    wire != [] && wire[|wire| - 1].task == t && !wire[|wire| - 1].ok
  }

  /** A failed attempt has cancelled its connection, or its writer is just about to. */
  predicate FailureSeen(s: State, c: nat, i: nat)
    requires c < |s.conns| && i < |s.conns[c].wire|
  {
    var n := s.conns[c];
    n.wire[i].ok || n.cancelled ||
    (&& i == |n.wire| - 1 && n.wire[i].task < |s.tasks|
     && s.tasks[n.wire[i].task].w.Failing? && s.tasks[n.wire[i].task].conn == c)
  }

  ghost predicate FailuresSeen(s: State)
    requires ConnsInRange(s)
  {
    && (forall t :: 0 <= t < |s.tasks| && s.tasks[t].w.Failing? ==> FailedLast(s, t))
    && (forall c, i :: 0 <= c < |s.conns| && 0 <= i < |s.conns[c].wire| ==> FailureSeen(s, c, i))
  }

  lemma FailuresWrite(cfg: Config, s: State, a: Action)
    requires ConnsInRange(s) && WriteLocksOk(s) && FailuresSeen(s) && Enabled(s, a) && a.Write?
    requires ConnsInRange(Next(cfg, s, a))
    ensures FailuresSeen(Next(cfg, s, a))
  {
    var s' := Next(cfg, s, a);
    var own := s.tasks[a.t].conn;
    WriteEffect(cfg, s, a);
    forall c: nat, i: nat | c < |s'.conns| && i < |s'.conns[c].wire|
      ensures FailureSeen(s', c, i)
    {
      if i < |s.conns[c].wire| {
        assert FailureSeen(s, c, i);
      }
    }
    forall t | 0 <= t < |s'.tasks| && s'.tasks[t].w.Failing?
      ensures FailedLast(s', t)
    {
      if t != a.t {
        assert FailedLast(s, t);
      }
    }
  }

  /** A step that writes nothing keeps the wires and what is cancelled. */
  lemma FailuresConns(cfg: Config, s: State, a: Action)
    requires Enabled(s, a) && !a.Write?
    ensures var s' := Next(cfg, s, a);
      && |s.conns| <= |s'.conns|
      && (forall c :: 0 <= c < |s.conns| ==>
            s'.conns[c].wire == s.conns[c].wire && (s.conns[c].cancelled ==> s'.conns[c].cancelled))
      && (forall c :: |s.conns| <= c < |s'.conns| ==> s'.conns[c].wire == [])
  {
    if a.Critical? {
      CriticalTasks(s, a.t);
    } else {
      QuietConns(cfg, s, a);
      forall c | 0 <= c < |s.conns|
        ensures s.conns[c].cancelled ==> Next(cfg, s, a).conns[c].cancelled
      {
        ConnCancelledStep(cfg, s, a, c);
      }
    }
  }

  lemma OwnFailing(cfg: Config, s: State, a: Action)
    requires IsTaskAction(a) && Enabled(s, a) && !a.Critical? && !a.Write? && TaskOk(cfg, s.tasks[a.t])
    ensures OwnNext(cfg, s, a).conn == s.tasks[a.t].conn
    ensures OwnNext(cfg, s, a).w.Failing? ==> s.tasks[a.t].w.Failing?
    ensures s.tasks[a.t].w.Failing? && !OwnNext(cfg, s, a).w.Failing? ==>
      Next(cfg, s, a).conns[s.tasks[a.t].conn].cancelled
  {
  }

  lemma FailuresTaskStep(cfg: Config, s: State, a: Action)
    requires IsTaskAction(a) && Enabled(s, a) && !a.Critical? && !a.Write? && TaskOk(cfg, s.tasks[a.t])
    ensures var s' := Next(cfg, s, a);
      && |s'.tasks| == |s.tasks|
      && (forall t :: 0 <= t < |s.tasks| && t != a.t ==> SameWriter(s.tasks[t], s'.tasks[t]))
      && s'.tasks[a.t].conn == s.tasks[a.t].conn < |s'.conns|
      && (s'.tasks[a.t].w.Failing? ==> s.tasks[a.t].w.Failing?)
      && (s.tasks[a.t].w.Failing? ==> s'.tasks[a.t].w.Failing? || s'.conns[s.tasks[a.t].conn].cancelled)
  {
    TaskStepTasks(cfg, s, a);
    OwnFailing(cfg, s, a);
  }

  predicate SameWriter(k: Task, k': Task) {
    k'.w == k.w && k'.conn == k.conn
  }

  lemma WritersElsewhere(cfg: Config, s: State, a: Action)
    requires Enabled(s, a) && (IsTaskAction(a) ==> a.Critical?)
    ensures |s.tasks| <= |Next(cfg, s, a).tasks|
    ensures forall t :: 0 <= t < |s.tasks| ==> SameWriter(s.tasks[t], Next(cfg, s, a).tasks[t])
    ensures forall t :: |s.tasks| <= t < |Next(cfg, s, a).tasks| ==> Next(cfg, s, a).tasks[t].w.Unstarted?
  {
    if a.Critical? {
      CriticalTasks(s, a.t);
    } else {
      ConnStepTasks(cfg, s, a);
    }
  }

  /** It moves no writer into its failure, and none out of it except by cancelling the connection. */
  lemma FailuresTasks(cfg: Config, s: State, a: Action)
    requires TasksOk(cfg, s) && Enabled(s, a) && !a.Write?
    requires |s.conns| <= |Next(cfg, s, a).conns|
    ensures var s' := Next(cfg, s, a);
      && |s.tasks| <= |s'.tasks|
      && (forall t :: 0 <= t < |s'.tasks| && s'.tasks[t].w.Failing? ==>
            t < |s.tasks| && s.tasks[t].w.Failing? && s'.tasks[t].conn == s.tasks[t].conn)
      && (forall t :: 0 <= t < |s.tasks| && s.tasks[t].w.Failing? ==>
            s'.tasks[t].conn == s.tasks[t].conn && (s'.tasks[t].w.Failing? || s'.conns[s.tasks[t].conn].cancelled))
  {
    if IsTaskAction(a) && !a.Critical? {
      FailuresTaskStep(cfg, s, a);
    } else {
      WritersElsewhere(cfg, s, a);
    }
  }

  lemma FailuresStep(cfg: Config, s: State, a: Action)
    requires Inv(cfg, s) && FailuresSeen(s) && Enabled(s, a)
    requires Inv(cfg, Next(cfg, s, a))
    ensures FailuresSeen(Next(cfg, s, a))
  {
    if a.Write? {
      FailuresWrite(cfg, s, a);
    } else {
      var s' := Next(cfg, s, a);
      FailuresConns(cfg, s, a);
      FailuresTasks(cfg, s, a);
      forall c: nat, i: nat | c < |s'.conns| && i < |s'.conns[c].wire|
        ensures FailureSeen(s', c, i)
      {
        assert FailureSeen(s, c, i);
      }
      forall t | 0 <= t < |s'.tasks| && s'.tasks[t].w.Failing?
        ensures FailedLast(s', t)
      {
        assert FailedLast(s, t);
      }
    }
  }

  lemma {:induction false} FailuresReachable(cfg: Config, acts: seq<Action>)
    requires Legal(cfg, acts)
    ensures Inv(cfg, After(cfg, acts)) && FailuresSeen(After(cfg, acts))
  {
    Reachable(cfg, acts);
    if acts != [] {
      FailuresReachable(cfg, acts[..|acts| - 1]);
      FailuresStep(cfg, After(cfg, acts[..|acts| - 1]), acts[|acts| - 1]);
    }
  }

  lemma FailingWriterFailedLast(s: State, t: nat)
    requires ConnsInRange(s) && FailuresSeen(s) && Enabled(s, CancelAfterFailure(t))
    ensures FailedLast(s, t)
  {
    assert s.tasks[t].w.Failing?;
  }

  /** In every run a writer cancels its connection only right after its own latest attempt failed. */
  lemma {:induction false} OnlyFailedWritesCancel(cfg: Config, acts: seq<Action>, t: nat)
    requires Legal(cfg, acts) && Enabled(After(cfg, acts), CancelAfterFailure(t))
    ensures FailedLast(After(cfg, acts), t)
  {
    FailuresReachable(cfg, acts);
    FailingWriterFailedLast(After(cfg, acts), t);
  }

  /** In every run a failed attempt cancels its connection: by the next attempt on that socket, and
      whenever no writer owns its lock, the connection is cancelled. */
  lemma {:induction false} FailedWritesCancel(cfg: Config, acts: seq<Action>, c: nat, i: nat)
    requires Legal(cfg, acts) && c < |After(cfg, acts).conns| && i < |After(cfg, acts).conns[c].wire|
    requires !After(cfg, acts).conns[c].wire[i].ok
    requires i < |After(cfg, acts).conns[c].wire| - 1 || After(cfg, acts).conns[c].writeLock.None?
    ensures After(cfg, acts).conns[c].cancelled
  {
    FailuresReachable(cfg, acts);
    assert FailureSeen(After(cfg, acts), c, i);
  }

  // ---------- What a run's handlers send ----------

  /** The messages that a step makes the handler of task t offer on its reply channel. */
  function OfferedBy(cfg: Config, s: State, a: Action, t: nat): seq<Message>
    requires Enabled(s, a)
  {
    if !IsTaskAction(a) || a.t != t then []
    else match a
      case HandlerSends(_, msg) => [msg]
      case EventSends(_, msg) => [msg]
      case DecodeCall(_) =>
        (match s.tasks[t].frame.call
         case Some(Call(id, callMethod)) =>
           if callMethod != ".cancel" && callMethod !in cfg.methods then [KoReply(id, "Unknown method")] else []
         case None => [])
      case Critical(_) =>
        (match s.tasks[t].frame.call
         case Some(Call(id, callMethod)) => if callMethod == ".cancel" then [OkReply(id)] else []
         case None => [])
      case _ => []
  }

  /** All the messages that the steps of a run made the handler of task t offer, in order. */
  function Offered(cfg: Config, acts: seq<Action>, t: nat): seq<Message>
    requires Legal(cfg, acts)
    decreases |acts|
  {
    if acts == [] then []
    else
      var past := acts[..|acts| - 1];
      Offered(cfg, past, t) + OfferedBy(cfg, After(cfg, past), acts[|acts| - 1], t)
  }

  /** The message a handler offers until its writer receives it. */
  function Pending(h: HandlerPc): seq<Message> {
    if h.Sending? then [h.msg] else []
  }

  /** What task t has handed over or is offering; nothing before it exists. */
  function HandedOver(s: State, t: nat): seq<Message> {
    if t < |s.tasks| then s.tasks[t].sent + Pending(s.tasks[t].h) else []
  }

  lemma OwnOffer(cfg: Config, s: State, a: Action)
    requires IsTaskAction(a) && Enabled(s, a) && !a.Critical?
    ensures var k, k' := s.tasks[a.t], OwnNext(cfg, s, a);
      k'.sent + Pending(k'.h) == k.sent + Pending(k.h) + OfferedBy(cfg, s, a, a.t)
  {
  }

  lemma OfferCritical(cfg: Config, s: State, a: Action)
    requires Enabled(s, a) && a.Critical? && TaskOk(cfg, s.tasks[a.t])
    ensures HandedOver(Next(cfg, s, a), a.t) == HandedOver(s, a.t) + OfferedBy(cfg, s, a, a.t)
  {
    CriticalTasks(s, a.t);
  }

  lemma OfferElsewhere(cfg: Config, s: State, a: Action, t: nat)
    requires Enabled(s, a) && !(IsTaskAction(a) && a.t == t)
    ensures HandedOver(Next(cfg, s, a), t) == HandedOver(s, t)
  {
    if a.Critical? {
      CriticalTasks(s, a.t);
    } else {
      StepTasks(cfg, s, a);
    }
  }

  lemma OfferStep(cfg: Config, s: State, a: Action, t: nat)
    requires TasksOk(cfg, s) && Enabled(s, a)
    ensures HandedOver(Next(cfg, s, a), t) == HandedOver(s, t) + OfferedBy(cfg, s, a, t)
  {
    if !(IsTaskAction(a) && a.t == t) {
      OfferElsewhere(cfg, s, a, t);
    } else if a.Critical? {
      OfferCritical(cfg, s, a);
    } else {
      TaskStepTasks(cfg, s, a);
      OwnOffer(cfg, s, a);
    }
  }

  /** In every run a task's handler has handed over exactly what the run's steps made it offer, but for the
      message it is still offering. */
  lemma {:induction false} HandedOverIsOffered(cfg: Config, acts: seq<Action>, t: nat)
    requires Legal(cfg, acts)
    ensures HandedOver(After(cfg, acts), t) == Offered(cfg, acts, t)
  {
    if acts != [] {
      var past := acts[..|acts| - 1];
      HandedOverIsOffered(cfg, past, t);
      Reachable(cfg, past);
      OfferStep(cfg, After(cfg, past), acts[|acts| - 1], t);
    }
  }

  /** Conservation, in every run: what a task's handler was made to send is what was tried on its socket,
      then what its writer holds, then what is still offered, each message once and in order. */
  lemma {:induction false} OfferedIsDelivered(cfg: Config, acts: seq<Action>, t: nat)
    requires Legal(cfg, acts) && t < |After(cfg, acts).tasks|
    ensures var s := After(cfg, acts); var k := s.tasks[t];
      && k.conn < |s.conns|
      && Offered(cfg, acts, t) == AttemptsOf(s.conns[k.conn].wire, t) + InHand(k.w) + Pending(k.h)
  {
    DeliveringReachable(cfg, acts);
    HandedOverIsOffered(cfg, acts, t);
    assert TaskDelivered(After(cfg, acts), t);
  }

  // ---------- What a run delivers ----------

  /**
    In every run, the write attempts of a task on its socket are an in-order prefix of the messages its
    handler sent, at most one short, equal once the writer ended; whether attempts failed makes no
    difference, and no other socket ever carries a message of the task.
   */
  lemma {:induction false} DeliveredInOrder(cfg: Config, acts: seq<Action>, t: nat)
    requires Legal(cfg, acts) && t < |After(cfg, acts).tasks|
    ensures var s := After(cfg, acts); var k := s.tasks[t];
      && k.conn < |s.conns|
      && (var attempts := AttemptsOf(s.conns[k.conn].wire, t);
          && attempts <= k.sent && |k.sent| <= |attempts| + 1
          && (k.w.End? || k.w.Recv? ==> attempts == k.sent))
      && (forall c :: 0 <= c < |s.conns| && c != k.conn ==> AttemptsOf(s.conns[c].wire, t) == [])
  {
    DeliveringReachable(cfg, acts);
    var s := After(cfg, acts);
    assert TaskDelivered(s, t);
    forall c | 0 <= c < |s.conns| && c != s.tasks[t].conn
      ensures AttemptsOf(s.conns[c].wire, t) == []
    {
      forall i: nat | i < |s.conns[c].wire|
        ensures s.conns[c].wire[i].task != t
      {
        assert OnItsWire(s, c, i);
      }
      NoAttempts(s.conns[c].wire, t);
    }
  }

  /**
    What a finished task has written: nothing for an unknown message type or an undecodable call, one ok
    for a .cancel whether or not it found its call, one error for an unknown method, and otherwise what the
    steps of the call handler and of its events offered.
   */
  lemma {:induction false} FinishedTaskWrote(cfg: Config, acts: seq<Action>, t: nat)
    requires Legal(cfg, acts) && t < |After(cfg, acts).tasks|
    requires Finished(After(cfg, acts).tasks[t])
    ensures var s := After(cfg, acts); var k := s.tasks[t];
      k.conn < |s.conns| &&
      var attempts := AttemptsOf(s.conns[k.conn].wire, t);
      if k.frame.msgType != Some("call") || k.frame.call.None? then attempts == []
      else
        var Call(id, callMethod) := k.frame.call.value;
        if callMethod == ".cancel" then attempts == [OkReply(id)]
        else if callMethod !in cfg.methods then attempts == [KoReply(id, "Unknown method")]
        else attempts == Offered(cfg, acts, t)
  {
    Reachable(cfg, acts);
    DeliveredInOrder(cfg, acts, t);
    OfferedIsDelivered(cfg, acts, t);
    assert TaskOk(cfg, After(cfg, acts).tasks[t]);
  }

  /** reply is closed at most once, by a handler that has returned: never before or during a send. */
  lemma {:induction false} ReplyClosedOnce(cfg: Config, acts: seq<Action>, t: nat)
    requires Legal(cfg, acts) && t < |After(cfg, acts).tasks|
    ensures var k := After(cfg, acts).tasks[t];
      && k.closes <= 1 && (k.closes == 1 <==> k.h.Closed?)
      && (k.h.Sending? || k.h.Running? || k.h.Parked? ==> k.closes == 0)
  {
    Reachable(cfg, acts);
    assert TaskOk(cfg, After(cfg, acts).tasks[t]);
  }

  lemma ClosedStaysClosed(cfg: Config, s: State, a: Action, t: nat)
    requires Enabled(s, a) && t < |s.tasks| && s.tasks[t].h.Closed?
    ensures t < |Next(cfg, s, a).tasks|
    ensures var k := Next(cfg, s, a).tasks[t]; k.h.Closed? && k.sent == s.tasks[t].sent
  {
    if a.Critical? {
      CriticalTasks(s, a.t);
    } else {
      StepTasks(cfg, s, a);
      if IsTaskAction(a) && a.t == t {
        ClosedOwn(cfg, s, a);
      }
    }
  }

  lemma ClosedOwn(cfg: Config, s: State, a: Action)
    requires IsTaskAction(a) && Enabled(s, a) && !a.Critical? && s.tasks[a.t].h.Closed?
    ensures OwnNext(cfg, s, a).h.Closed? && OwnNext(cfg, s, a).sent == s.tasks[a.t].sent
  {
  }

  /** The close comes after the last send: whatever follows in the run, the task sends nothing more. */
  lemma {:induction false} NothingSentAfterClose(cfg: Config, acts: seq<Action>, i: nat, t: nat)
    requires Legal(cfg, acts) && i <= |acts|
    requires t < |StateAt(cfg, acts, i).tasks| && StateAt(cfg, acts, i).tasks[t].closes == 1
    ensures t < |After(cfg, acts).tasks|
    ensures After(cfg, acts).tasks[t].h.Closed?
    ensures After(cfg, acts).tasks[t].sent == StateAt(cfg, acts, i).tasks[t].sent
    decreases |acts| - i
  {
    ReachableAt(cfg, acts, i);
    assert TaskOk(cfg, StateAt(cfg, acts, i).tasks[t]);
    if i == |acts| {
      StateAtEnds(cfg, acts);
    } else {
      StateAtStep(cfg, acts, i);
      ClosedStaysClosed(cfg, StateAt(cfg, acts, i), acts[i], t);
      ReachableAt(cfg, acts, i + 1);
      assert TaskOk(cfg, StateAt(cfg, acts, i + 1).tasks[t]);
      NothingSentAfterClose(cfg, acts, i + 1, t);
    }
  }
}
