/** Deadlock freedom of the call protocol, and its termination once every read loop has exited. */
module CallProgress {
  import opened Options
  import opened CallProtocol
  import opened CallInvariants
  import opened CallCancellation
  import opened CallDelivery

  // ---------- Deadlock freedom ----------

  /** Finished, or waiting with everything delivered for a context that is still live. */
  predicate Quiet(k: Task) {
    Finished(k) || (k.h.Parked? && k.ctx.Live? && k.w.Recv?)
  }

  /** Steps whose number only the call handler decides. */
  predicate IsHandlerChoice(a: Action) {
    a.HandlerSends? || a.HandlerWaits? || a.EventSends?
  }

  /** The step that the holder of activeLock can take: it never waits for anything. */
  function HolderStep(k: Task, t: nat): Action {
    if k.h.InLock? then Critical(t) else if k.h.Leaving? then Unlock(t) else Rendezvous(t)
  }

  /** A .cancel that sends its reply while it owns activeLock finds its own writer ready to receive. */
  lemma CancelSenderHasReadyWriter(cfg: Config, s: State, t: nat)
    requires Inv(cfg, s) && t < |s.tasks|
    requires s.tasks[t].h.Sending? && s.tasks[t].h.from.FromCancel?
    ensures s.lock == Some(t) && s.tasks[t].w.Recv? && Enabled(s, Rendezvous(t))
  {
    assert TaskOk(cfg, s.tasks[t]);
  }

  lemma HolderNeverWaits(cfg: Config, s: State, t: nat)
    requires Inv(cfg, s) && s.lock == Some(t)
    ensures t < |s.tasks| && Enabled(s, HolderStep(s.tasks[t], t))
  {
    if s.tasks[t].h.Sending? {
      CancelSenderHasReadyWriter(cfg, s, t);
    }
  }

  function WriterStep(k: Task, t: nat): Action {
    if k.w.Writing? then Write(t, true) else if k.w.Failing? then CancelAfterFailure(t) else UnlockWrite(t)
  }

  lemma WriteHolderNeverWaits(cfg: Config, s: State, c: nat, t: nat)
    requires Inv(cfg, s) && c < |s.conns| && s.conns[c].writeLock == Some(t)
    ensures t < |s.tasks| && Enabled(s, WriterStep(s.tasks[t], t))
  {
    assert s.tasks[t].conn == c;
  }

  /** A step, of this task or of the one it waits for, that is no choice of a call handler. */
  function ProgressStep(s: State, t: nat): Action
    requires t < |s.tasks| && s.tasks[t].conn < |s.conns|
  {
    var k := s.tasks[t];
    if k.w.Unstarted? then LookUpHandler(t)
    else if k.w.WantWrite? then
      (match s.conns[k.conn].writeLock
       case None => LockWrite(t)
       case Some(o) => if o < |s.tasks| then WriterStep(s.tasks[o], o) else LockWrite(t))
    else if HoldsWriteLock(k.w) then WriterStep(k, t)
    else match k.h
      case Start => DecodeCall(t)
      case WantLock(_) =>
        (match s.lock
         case None => Lock(t)
         case Some(o) => if o < |s.tasks| then HolderStep(s.tasks[o], o) else Lock(t))
      case InLock(_) => Critical(t)
      case Leaving(_) => Unlock(t)
      case Running => HandlerReturns(t)
      case Parked => HandlerWakes(t)
      case Sending(_, _) => Rendezvous(t)
      case Returned => CloseReply(t)
      case _ => WriterEnds(t)
  }

  lemma WriterProgress(cfg: Config, s: State, t: nat)
    requires Inv(cfg, s) && t < |s.tasks| && (s.tasks[t].w.WantWrite? || HoldsWriteLock(s.tasks[t].w))
    ensures Enabled(s, ProgressStep(s, t))
    ensures IsTaskStep(ProgressStep(s, t)) && !IsHandlerChoice(ProgressStep(s, t))
  {
    var k := s.tasks[t];
    if k.w.WantWrite? && s.conns[k.conn].writeLock.Some? {
      WriteHolderNeverWaits(cfg, s, k.conn, s.conns[k.conn].writeLock.value);
    }
  }

  lemma HandlerProgress(cfg: Config, s: State, t: nat)
    requires Inv(cfg, s) && t < |s.tasks| && TaskOk(cfg, s.tasks[t]) && !Quiet(s.tasks[t])
    requires !s.tasks[t].w.WantWrite? && !HoldsWriteLock(s.tasks[t].w)
    requires s.tasks[t].h.Parked? ==> !s.tasks[t].ctx.Absent?
    ensures Enabled(s, ProgressStep(s, t))
    ensures IsTaskStep(ProgressStep(s, t)) && !IsHandlerChoice(ProgressStep(s, t))
  {
    if s.tasks[t].h.WantLock? && s.lock.Some? {
      HolderNeverWaits(cfg, s, s.lock.value);
    }
  }

  lemma ProgressStepEnabled(cfg: Config, s: State, t: nat)
    requires Inv(cfg, s) && t < |s.tasks| && !Quiet(s.tasks[t])
    ensures Enabled(s, ProgressStep(s, t))
    ensures IsTaskStep(ProgressStep(s, t)) && !IsHandlerChoice(ProgressStep(s, t))
  {
    assert TaskOk(cfg, s.tasks[t]);
    if s.tasks[t].w.WantWrite? || HoldsWriteLock(s.tasks[t].w) {
      WriterProgress(cfg, s, t);
    } else {
      HandlerProgress(cfg, s, t);
    }
  }

  /**
    Deadlock freedom, exactly: in every reachable state some task step is enabled if and only if some
    task is neither finished nor parked on a live context.
   */
  lemma {:induction false} DeadlockFree(cfg: Config, acts: seq<Action>)
    requires Legal(cfg, acts)
    ensures var s := After(cfg, acts);
      (exists a :: IsTaskStep(a) && Enabled(s, a)) <==> (exists t :: 0 <= t < |s.tasks| && !Quiet(s.tasks[t]))
  {
    ContextsReachable(cfg, acts);
    var s := After(cfg, acts);
    if t :| 0 <= t < |s.tasks| && !Quiet(s.tasks[t]) {
      ProgressStepEnabled(cfg, s, t);
      assert IsTaskStep(ProgressStep(s, t)) && Enabled(s, ProgressStep(s, t));
    }
    if a :| IsTaskStep(a) && Enabled(s, a) {
      assert TaskOk(cfg, s.tasks[a.t]);
      assert !Quiet(s.tasks[a.t]);
    }
  }

  // ---------- Shutdown ----------

  /** A loop cancels its connection before it closes the socket, and has exited exactly when it closed it. */
  predicate LoopOk(n: Conn) {
    && (n.loop.Closing? || n.loop.Exited? ==> n.cancelled)
    && (n.closed <==> n.loop.Exited?)
  }

  ghost predicate LoopsOk(s: State) {
    forall c :: 0 <= c < |s.conns| ==> LoopOk(s.conns[c])
  }

  lemma LoopOkNext(cfg: Config, n: Conn, t: nat, a: Action)
    requires IsConnAction(a) && ConnEnabled(n, a) && LoopOk(n)
    ensures LoopOk(LoopNext(cfg, n, t, a))
  {
  }

  lemma TaskStepLoops(cfg: Config, s: State, a: Action)
    requires IsTaskAction(a) && Enabled(s, a)
    ensures |Next(cfg, s, a).conns| == |s.conns|
    ensures forall c :: 0 <= c < |s.conns| ==>
      var n, n' := s.conns[c], Next(cfg, s, a).conns[c];
      n'.loop == n.loop && n'.closed == n.closed && (n.cancelled ==> n'.cancelled)
  {
  }

  lemma LoopsOkStep(cfg: Config, s: State, a: Action)
    requires LoopsOk(s) && Enabled(s, a)
    ensures LoopsOk(Next(cfg, s, a))
  {
    if IsTaskAction(a) {
      TaskStepLoops(cfg, s, a);
    } else if IsConnAction(a) {
      LoopOkNext(cfg, s.conns[a.c], |s.tasks|, a);
      assert Next(cfg, s, a).conns == s.conns[a.c := LoopNext(cfg, s.conns[a.c], |s.tasks|, a)];
    }
  }

  ghost predicate AllExited(s: State) {
    forall c :: 0 <= c < |s.conns| ==> s.conns[c].loop.Exited?
  }

  lemma ExitedStep(cfg: Config, s: State, a: Action)
    requires AllExited(s) && Enabled(s, a) && !a.OpenConn?
    ensures AllExited(Next(cfg, s, a))
    ensures !IsTaskAction(a) ==> a.ParentCancels? || a.ReaderGets?
  {
  }

  /** Everything shown to hold of reachable states. */
  ghost predicate Good(cfg: Config, s: State) {
    Inv(cfg, s) && ContextsOk(s) && LoopsOk(s) && Delivering(s)
  }

  lemma GoodStep(cfg: Config, s: State, a: Action)
    requires Good(cfg, s) && Enabled(s, a)
    ensures Good(cfg, Next(cfg, s, a))
  {
    InvStep(cfg, s, a);
    DeliveringStep(cfg, s, a);
    ContextsStep(cfg, s, a);
    LoopsOkStep(cfg, s, a);
  }

  lemma {:induction false} GoodReachable(cfg: Config, acts: seq<Action>)
    requires Legal(cfg, acts)
    ensures Good(cfg, After(cfg, acts))
  {
    if acts != [] {
      GoodReachable(cfg, acts[..|acts| - 1]);
      GoodStep(cfg, After(cfg, acts[..|acts| - 1]), acts[|acts| - 1]);
    }
  }

  /** In every run a socket is closed exactly when its loop has exited, and never before its context is cancelled. */
  lemma {:induction false} ClosedAfterCancel(cfg: Config, acts: seq<Action>, c: nat)
    requires Legal(cfg, acts) && c < |After(cfg, acts).conns|
    ensures var n := After(cfg, acts).conns[c]; (n.closed <==> n.loop.Exited?) && (n.closed ==> n.cancelled)
  {
    GoodReachable(cfg, acts);
  }

  /** The step of its loop that brings a cancelled connection closer to its exit. */
  function ExitStep(n: Conn, c: nat): Action {
    match n.loop
    case Idle => StartRead(c)
    case Selecting(_) => LoopSeesDone(c)
    case Got(_) => LoopHandles(c)
    case Broken => LoopCancels(c)
    case _ => LoopCloses(c)
  }

  function ExitRank(loop: LoopPc): nat {
    match loop
    case Got(_) => 5
    case Idle => 4
    case Selecting(_) => 3
    case Broken => 2
    case Closing => 1
    case Exited => 0
  }

  lemma ExitStepLowers(cfg: Config, s: State, c: nat)
    requires c < |s.conns| && s.conns[c].cancelled && !s.conns[c].loop.Exited?
    ensures Enabled(s, ExitStep(s.conns[c], c))
    ensures var s' := Next(cfg, s, ExitStep(s.conns[c], c));
      c < |s'.conns| && s'.conns[c].cancelled && ExitRank(s'.conns[c].loop) < ExitRank(s.conns[c].loop)
  {
  }

  /** From any reachable state the loop of a cancelled connection can exit in at most five steps of its own. */
  lemma {:induction false} CancelledLoopCanExit(cfg: Config, acts: seq<Action>, c: nat) returns (acts': seq<Action>)
    requires Legal(cfg, acts) && c < |After(cfg, acts).conns| && After(cfg, acts).conns[c].cancelled
    ensures Legal(cfg, acts') && acts <= acts'
    ensures |acts'| <= |acts| + ExitRank(After(cfg, acts).conns[c].loop) <= |acts| + 5
    ensures c < |After(cfg, acts').conns| && After(cfg, acts').conns[c].loop.Exited?
    decreases ExitRank(After(cfg, acts).conns[c].loop)
  {
    if After(cfg, acts).conns[c].loop.Exited? {
      acts' := acts;
    } else {
      var a := ExitStep(After(cfg, acts).conns[c], c);
      ExitStepLowers(cfg, After(cfg, acts), c);
      Extend(cfg, acts, a);
      acts' := CancelledLoopCanExit(cfg, acts + [a], c);
    }
  }

  // ---------- How long a loop can go on ----------

  /** A step of the loop of connection c itself. */
  predicate IsLoopStep(a: Action, c: nat) {
    IsConnAction(a) && a.c == c && !a.ParentCancels? && !a.ReaderGets?
  }

  /** The steps a loop can still take without a further result from its socket. */
  function LoopWork(n: Conn): nat {
    ExitRank(n.loop) +
    (if n.loop.Selecting? && n.loop.reader < |n.readers| && n.readers[n.loop.reader].Holding? then 3 else 0)
  }

  lemma LoopWorkNext(cfg: Config, n: Conn, t: nat, a: Action)
    requires IsConnAction(a) && ConnEnabled(n, a)
    ensures LoopWork(LoopNext(cfg, n, t, a)) + (if IsLoopStep(a, a.c) then 1 else 0) <=
            LoopWork(n) + (if a.ReaderGets? then 3 else 0)
    ensures n.cancelled ==> LoopNext(cfg, n, t, a).cancelled
  {
  }

  lemma TaskStepLoopWork(cfg: Config, s: State, a: Action, c: nat)
    requires IsTaskAction(a) && Enabled(s, a) && c < |s.conns|
    ensures c < |Next(cfg, s, a).conns|
    ensures LoopWork(Next(cfg, s, a).conns[c]) == LoopWork(s.conns[c])
    ensures s.conns[c].cancelled ==> Next(cfg, s, a).conns[c].cancelled
  {
  }

  lemma LoopWorkStep(cfg: Config, s: State, a: Action, c: nat)
    requires Enabled(s, a) && c < |s.conns|
    ensures c < |Next(cfg, s, a).conns|
    ensures LoopWork(Next(cfg, s, a).conns[c]) + (if IsLoopStep(a, c) then 1 else 0) <=
            LoopWork(s.conns[c]) + (if a.ReaderGets? && a.c == c then 3 else 0)
    ensures s.conns[c].cancelled ==> Next(cfg, s, a).conns[c].cancelled
  {
    if IsTaskAction(a) {
      TaskStepLoopWork(cfg, s, a, c);
    } else if IsConnAction(a) {
      LoopWorkNext(cfg, s.conns[a.c], |s.tasks|, a);
      assert Next(cfg, s, a).conns == s.conns[a.c := LoopNext(cfg, s.conns[a.c], |s.tasks|, a)];
    }
  }

  function LoopSteps(acts: seq<Action>, c: nat): nat {
    if acts == [] then 0 else LoopSteps(acts[..|acts| - 1], c) + (if IsLoopStep(acts[|acts| - 1], c) then 1 else 0)
  }

  /** The results that the readers of connection c got. */
  function ResultsRead(acts: seq<Action>, c: nat): nat {
    if acts == [] then 0
    else
      var last := acts[|acts| - 1];
      ResultsRead(acts[..|acts| - 1], c) + (if last.ReaderGets? && last.c == c then 1 else 0)
  }

  lemma {:induction false} LoopWorkBounds(cfg: Config, past: seq<Action>, acts: seq<Action>, c: nat)
    requires Legal(cfg, past + acts) && Legal(cfg, past) && c < |After(cfg, past).conns|
    ensures c < |After(cfg, past + acts).conns|
    ensures LoopSteps(acts, c) + LoopWork(After(cfg, past + acts).conns[c]) <=
            LoopWork(After(cfg, past).conns[c]) + 3 * ResultsRead(acts, c)
    ensures After(cfg, past).conns[c].cancelled ==> After(cfg, past + acts).conns[c].cancelled
  {
    if acts == [] {
      assert past + acts == past;
    } else {
      var n := |acts| - 1;
      assert (past + acts)[..|past + acts| - 1] == past + acts[..n];
      LoopWorkBounds(cfg, past, acts[..n], c);
      LoopWorkStep(cfg, After(cfg, past + acts[..n]), acts[n], c);
    }
  }

  /**
    However a run goes on, a loop takes at most so many steps of its own as LoopWork says, and three more for
    each result that its readers get; and a cancelled loop can step until it has exited.  So it exits, if its
    socket delivers no more than finitely many results and it gets its turn.
   */
  lemma {:induction false} LoopStepsBounded(cfg: Config, past: seq<Action>, acts: seq<Action>, c: nat)
    requires Legal(cfg, past + acts) && Legal(cfg, past) && c < |After(cfg, past).conns|
    ensures LoopSteps(acts, c) <= LoopWork(After(cfg, past).conns[c]) + 3 * ResultsRead(acts, c)
                               <= 6 + 3 * ResultsRead(acts, c)
    ensures After(cfg, past).conns[c].cancelled ==>
      var end := After(cfg, past + acts);
      && c < |end.conns|
      && ((exists a :: IsLoopStep(a, c) && Enabled(end, a)) <==> !end.conns[c].loop.Exited?)
  {
    LoopWorkBounds(cfg, past, acts, c);
    var end := After(cfg, past + acts);
    if After(cfg, past).conns[c].cancelled && !end.conns[c].loop.Exited? {
      ExitStepLowers(cfg, end, c);
      assert IsLoopStep(ExitStep(end.conns[c], c), c);
    }
  }

  /** With every loop gone no context is live, so nothing may stay parked. */
  lemma QuietIsFinished(cfg: Config, s: State, t: nat)
    requires Good(cfg, s) && AllExited(s) && t < |s.tasks|
    ensures Quiet(s.tasks[t]) == Finished(s.tasks[t])
  {
    assert TaskOk(cfg, s.tasks[t]) && ContextOk(s, s.tasks[t]);
  }

  function HandlerRank(h: HandlerPc): nat {
    match h
    case NoHandler => 0
    case Closed => 0
    case Returned => 1
    case Leaving(sec) => if sec.Register? then 6 else 2
    case InLock(sec) => if sec.Deregister? then 3 else if sec.Register? then 7 else 8
    case WantLock(sec) => if sec.Deregister? then 4 else if sec.Register? then 8 else 9
    case Running => 5
    case Parked => 6
    case Sending(_, from) =>
      (match from
       case FromHandler => 10
       case FromEvent => 11
       case FromCancel => 7
       case FromUnknown => 6)
    case Start => 10
    case NotStarted => 11
  }

  function WriterRank(w: WriterPc): nat {
    match w
    case End => 0
    case Unstarted => 1
    case Recv => 1
    case Unlocking => 2
    case Failing => 3
    case Writing(_) => 4
    case WantWrite(_) => 5
  }

  function RankOf(k: Task): nat {
    HandlerRank(k.h) + WriterRank(k.w)
  }

  /** The steps a task can still take, when its handler has `budget` choices left. */
  function Cost(k: Task, budget: nat): nat {
    RankOf(k) + 6 * budget
  }

  function Measure(tasks: seq<Task>, budgets: seq<nat>): nat
    requires |tasks| == |budgets|
  {
    if tasks == [] then 0
    else
      var n := |tasks| - 1;
      Measure(tasks[..n], budgets[..n]) + Cost(tasks[n], budgets[n])
  }

  /** A choice of its call handler uses up one unit of a task's budget. */
  function Spend(budgets: seq<nat>, a: Action): seq<nat> {
    if IsHandlerChoice(a) && a.t < |budgets| && budgets[a.t] > 0 then budgets[a.t := budgets[a.t] - 1] else budgets
  }

  /** One step in which no new connection opens and no call handler exceeds its budget. */
  predicate WithinBudget(s: State, budgets: seq<nat>, a: Action) {
    && |budgets| == |s.tasks| && !a.OpenConn? && Enabled(s, a)
    && (IsHandlerChoice(a) ==> budgets[a.t] > 0)
  }

  lemma RanksAfter(cfg: Config, s: State, a: Action, t: nat)
    requires Inv(cfg, s) && AllExited(s) && Enabled(s, a) && !a.OpenConn? && t < |s.tasks|
    ensures |Next(cfg, s, a).tasks| == |s.tasks|
    ensures var k, k' := s.tasks[t], Next(cfg, s, a).tasks[t];
      if IsTaskAction(a) && t == a.t then RankOf(k') < RankOf(k) + (if IsHandlerChoice(a) then 6 else 0)
      else RankOf(k') == RankOf(k)
  {
    ExitedStep(cfg, s, a);
    assert TaskOk(cfg, s.tasks[t]);
    if a.Critical? {
      CriticalTasks(s, a.t);
      CriticalRank(s, a.t);
    } else {
      StepTasks(cfg, s, a);
      if IsTaskAction(a) && t == a.t {
        OwnCost(cfg, s, a);
      }
    }
  }

  lemma CriticalRank(s: State, t: nat)
    requires t < |s.tasks| && s.tasks[t].h.InLock?
    ensures HandlerRank(CriticalNext(s, t).tasks[t].h) < HandlerRank(s.tasks[t].h)
  {
  }

  lemma CostsDecrease(cfg: Config, s: State, budgets: seq<nat>, a: Action, t: nat)
    requires Inv(cfg, s) && AllExited(s) && WithinBudget(s, budgets, a) && t < |s.tasks|
    ensures |Next(cfg, s, a).tasks| == |s.tasks| && |Spend(budgets, a)| == |budgets|
    ensures Cost(Next(cfg, s, a).tasks[t], Spend(budgets, a)[t]) <= Cost(s.tasks[t], budgets[t])
    ensures IsTaskAction(a) && t == a.t ==>
      Cost(Next(cfg, s, a).tasks[t], Spend(budgets, a)[t]) < Cost(s.tasks[t], budgets[t])
  {
    RanksAfter(cfg, s, a, t);
  }

  /** Every step of a task lowers its rank, except that a choice of its handler raises it by less than 6. */
  lemma OwnCost(cfg: Config, s: State, a: Action)
    requires IsTaskAction(a) && Enabled(s, a) && !a.Critical? && TaskOk(cfg, s.tasks[a.t])
    ensures RankOf(OwnNext(cfg, s, a)) < RankOf(s.tasks[a.t]) + (if IsHandlerChoice(a) then 6 else 0)
  {
  }

  lemma {:induction false} MeasureDecreases(tasks: seq<Task>, budgets: seq<nat>, tasks': seq<Task>, budgets': seq<nat>)
    requires |tasks| == |budgets| == |tasks'| == |budgets'|
    requires forall i :: 0 <= i < |tasks| ==> Cost(tasks'[i], budgets'[i]) <= Cost(tasks[i], budgets[i])
    ensures Measure(tasks', budgets') <= Measure(tasks, budgets)
    ensures (exists i :: 0 <= i < |tasks| && Cost(tasks'[i], budgets'[i]) < Cost(tasks[i], budgets[i])) ==>
      Measure(tasks', budgets') < Measure(tasks, budgets)
  {
    if tasks != [] {
      var n := |tasks| - 1;
      MeasureDecreases(tasks[..n], budgets[..n], tasks'[..n], budgets'[..n]);
      if i :| 0 <= i < n && Cost(tasks'[i], budgets'[i]) < Cost(tasks[i], budgets[i]) {
        assert Cost(tasks'[..n][i], budgets'[..n][i]) < Cost(tasks[..n][i], budgets[..n][i]);
      }
    }
  }

  /** After shutdown, every task step strictly lowers the measure and no other step raises it. */
  lemma StepLowersMeasure(cfg: Config, s: State, budgets: seq<nat>, a: Action)
    requires Good(cfg, s) && AllExited(s) && WithinBudget(s, budgets, a)
    ensures var s', budgets' := Next(cfg, s, a), Spend(budgets, a);
      && |budgets'| == |s'.tasks|
      && Measure(s'.tasks, budgets') <= Measure(s.tasks, budgets)
      && (IsTaskAction(a) ==> Measure(s'.tasks, budgets') < Measure(s.tasks, budgets))
  {
    var s', budgets' := Next(cfg, s, a), Spend(budgets, a);
    CostsAfter(cfg, s, budgets, a);
    MeasureDecreases(s.tasks, budgets, s'.tasks, budgets');
  }

  lemma CostsAfter(cfg: Config, s: State, budgets: seq<nat>, a: Action)
    requires Inv(cfg, s) && AllExited(s) && WithinBudget(s, budgets, a)
    ensures var s', budgets' := Next(cfg, s, a), Spend(budgets, a);
      && |s'.tasks| == |s.tasks| == |budgets'|
      && (forall t :: 0 <= t < |s.tasks| ==> Cost(s'.tasks[t], budgets'[t]) <= Cost(s.tasks[t], budgets[t]))
      && (IsTaskAction(a) ==>
            a.t < |s.tasks| && Cost(s'.tasks[a.t], budgets'[a.t]) < Cost(s.tasks[a.t], budgets[a.t]))
  {
    var s', budgets' := Next(cfg, s, a), Spend(budgets, a);
    SameTaskCount(cfg, s, a);
    forall t | 0 <= t < |s.tasks|
      ensures Cost(s'.tasks[t], budgets'[t]) <= Cost(s.tasks[t], budgets[t])
    {
      CostsDecrease(cfg, s, budgets, a, t);
    }
    if IsTaskAction(a) {
      CostsDecrease(cfg, s, budgets, a, a.t);
    }
  }

  lemma SameTaskCount(cfg: Config, s: State, a: Action)
    requires AllExited(s) && Enabled(s, a) && !a.OpenConn?
    ensures |Next(cfg, s, a).tasks| == |s.tasks|
    ensures IsTaskAction(a) ==> a.t < |s.tasks|
  {
    ExitedStep(cfg, s, a);
    if a.Critical? {
      CriticalTasks(s, a.t);
    } else {
      StepTasks(cfg, s, a);
    }
  }

  /** A run from s in which no connection opens and no call handler makes more than its budget of choices. */
  predicate ShutdownRun(cfg: Config, s: State, budgets: seq<nat>, acts: seq<Action>)
    decreases |acts|
  {
    acts == [] ||
    (WithinBudget(s, budgets, acts[0]) && ShutdownRun(cfg, Next(cfg, s, acts[0]), Spend(budgets, acts[0]), acts[1..]))
  }

  function EndOf(cfg: Config, s: State, budgets: seq<nat>, acts: seq<Action>): State
    requires ShutdownRun(cfg, s, budgets, acts)
    decreases |acts|
  {
    if acts == [] then s else EndOf(cfg, Next(cfg, s, acts[0]), Spend(budgets, acts[0]), acts[1..])
  }

  function TaskSteps(acts: seq<Action>): nat {
    if acts == [] then 0 else (if IsTaskAction(acts[0]) then 1 else 0) + TaskSteps(acts[1..])
  }

  /** Shutdown terminates: the measure of the state bounds the task steps of every run from it. */
  lemma {:induction false} ShutdownIsBounded(cfg: Config, s: State, budgets: seq<nat>, acts: seq<Action>)
    requires Good(cfg, s) && AllExited(s) && |budgets| == |s.tasks|
    requires ShutdownRun(cfg, s, budgets, acts)
    ensures Good(cfg, EndOf(cfg, s, budgets, acts)) && AllExited(EndOf(cfg, s, budgets, acts))
    ensures TaskSteps(acts) <= Measure(s.tasks, budgets)
    decreases |acts|
  {
    if acts != [] {
      GoodStep(cfg, s, acts[0]);
      ExitedStep(cfg, s, acts[0]);
      StepLowersMeasure(cfg, s, budgets, acts[0]);
      ShutdownIsBounded(cfg, Next(cfg, s, acts[0]), Spend(budgets, acts[0]), acts[1..]);
    }
  }

  /** All tasks finished with all they sent on the wire, the registry empty, both kinds of lock free. */
  ghost predicate Drained(s: State) {
    && (forall t :: 0 <= t < |s.tasks| ==>
          && Finished(s.tasks[t]) && s.tasks[t].conn < |s.conns|
          && AttemptsOf(s.conns[s.tasks[t].conn].wire, t) == s.tasks[t].sent)
    && s.active == map[] && s.lock.None?
    && (forall c :: 0 <= c < |s.conns| ==> s.conns[c].writeLock.None?)
  }

  lemma FinishedIsDrained(cfg: Config, s: State)
    requires Inv(cfg, s) && Delivering(s)
    requires forall t :: 0 <= t < |s.tasks| ==> Finished(s.tasks[t])
    ensures Drained(s)
  {
    assert forall id :: id !in s.active;
    forall t | 0 <= t < |s.tasks|
      ensures s.tasks[t].conn < |s.conns| && AttemptsOf(s.conns[s.tasks[t].conn].wire, t) == s.tasks[t].sent
    {
      assert TaskDelivered(s, t) && InHand(s.tasks[t].w) == [];
    }
  }

  /**
    From a reachable state in which every read loop has exited, a run that can take no further task step
    but a handler's choice has finished every task, put all they sent on the wire, emptied
    activeCalls and freed every lock; the measure of the state bounds the number of its task steps.
   */
  lemma {:induction false} ShutdownDrains(cfg: Config, past: seq<Action>, budgets: seq<nat>, acts: seq<Action>)
    requires Legal(cfg, past) && AllExited(After(cfg, past)) && |budgets| == |After(cfg, past).tasks|
    requires ShutdownRun(cfg, After(cfg, past), budgets, acts)
    ensures TaskSteps(acts) <= Measure(After(cfg, past).tasks, budgets)
    ensures var end := EndOf(cfg, After(cfg, past), budgets, acts);
      (forall a :: IsTaskStep(a) && !IsHandlerChoice(a) ==> !Enabled(end, a)) <==> Drained(end)
  {
    GoodReachable(cfg, past);
    ShutdownIsBounded(cfg, After(cfg, past), budgets, acts);
    var end := EndOf(cfg, After(cfg, past), budgets, acts);
    if forall a :: IsTaskStep(a) && !IsHandlerChoice(a) ==> !Enabled(end, a) {
      forall t | 0 <= t < |end.tasks|
        ensures Finished(end.tasks[t])
      {
        QuietIsFinished(cfg, end, t);
        if !Quiet(end.tasks[t]) {
          ProgressStepEnabled(cfg, end, t);
        }
      }
      FinishedIsDrained(cfg, end);
    }
    if Drained(end) {
      forall a | IsTaskStep(a)
        ensures !Enabled(end, a)
      {
        if IsTaskAction(a) && a.t < |end.tasks| {
          assert Finished(end.tasks[a.t]) && TaskOk(cfg, end.tasks[a.t]);
        }
      }
    }
  }

  /** The system can always drain after shutdown, without any further choice of a call handler. */
  lemma {:induction false} ShutdownCanDrain(cfg: Config, s: State, budgets: seq<nat>) returns (acts: seq<Action>)
    requires Good(cfg, s) && AllExited(s) && |budgets| == |s.tasks|
    ensures ShutdownRun(cfg, s, budgets, acts) && Drained(EndOf(cfg, s, budgets, acts))
    decreases Measure(s.tasks, budgets)
  {
    if t :| 0 <= t < |s.tasks| && !Finished(s.tasks[t]) {
      QuietIsFinished(cfg, s, t);
      ProgressStepEnabled(cfg, s, t);
      var a := ProgressStep(s, t);
      StepLowersMeasure(cfg, s, budgets, a);
      GoodStep(cfg, s, a);
      ExitedStep(cfg, s, a);
      var rest := ShutdownCanDrain(cfg, Next(cfg, s, a), Spend(budgets, a));
      acts := [a] + rest;
      assert acts[1..] == rest;
    } else {
      FinishedIsDrained(cfg, s);
      acts := [];
    }
  }
}
