/** When the context of a call is cancelled: for the reasons in its run's history, and no others. */
module CallCancellation {
  import opened CallProtocol
  import opened CallInvariants

  /** A call's context is cancelled exactly if its connection's is or a .cancel found the call. */
  predicate ContextOk(s: State, k: Task)
    requires k.conn < |s.conns|
  {
    && (k.ctx.Absent? ==> !k.aborted)
    && (!k.ctx.Absent? ==> (k.ctx.Cancelled? <==> s.conns[k.conn].cancelled || k.aborted))
  }

  ghost predicate ContextsOk(s: State)
    requires ConnsInRange(s)
  {
    forall t :: 0 <= t < |s.tasks| ==> ContextOk(s, s.tasks[t])
  }

  /** The steps that cancel the context of connection c. */
  predicate CancelsConn(s: State, a: Action, c: nat)
    requires Enabled(s, a)
  {
    || a == ParentCancels(c)
    || a == LoopCancels(c)
    || (a.CancelAfterFailure? && s.tasks[a.t].conn == c)
  }

  /** The step in which a .cancel finds call v in activeCalls. */
  predicate FindsCall(s: State, a: Action, v: nat)
    requires Enabled(s, a)
  {
    a.Critical? &&
    match s.tasks[a.t].frame.call
    case Some(Call(id, callMethod)) => callMethod == ".cancel" && id in s.active && s.active[id] == v
    case None => false
  }

  // ---------- One step ----------

  lemma LoopCancelled(cfg: Config, n: Conn, t: nat, a: Action)
    requires IsConnAction(a) && ConnEnabled(n, a)
    ensures LoopNext(cfg, n, t, a).cancelled <==> n.cancelled || a.ParentCancels? || a.LoopCancels?
  {
  }

  lemma TaskStepCancelled(cfg: Config, s: State, a: Action, c: nat)
    requires IsTaskAction(a) && Enabled(s, a) && c < |s.conns|
    ensures c < |Next(cfg, s, a).conns|
    ensures Next(cfg, s, a).conns[c].cancelled <==>
      s.conns[c].cancelled || (a.CancelAfterFailure? && s.tasks[a.t].conn == c)
  {
  }

  lemma ConnCancelledStep(cfg: Config, s: State, a: Action, c: nat)
    requires Enabled(s, a) && c < |s.conns|
    ensures c < |Next(cfg, s, a).conns|
    ensures Next(cfg, s, a).conns[c].cancelled <==> s.conns[c].cancelled || CancelsConn(s, a, c)
  {
    if IsTaskAction(a) {
      TaskStepCancelled(cfg, s, a, c);
    } else if IsConnAction(a) {
      LoopCancelled(cfg, s.conns[a.c], |s.tasks|, a);
      assert Next(cfg, s, a).conns == s.conns[a.c := LoopNext(cfg, s.conns[a.c], |s.tasks|, a)];
    }
  }

  lemma NewConnLive(cfg: Config, s: State, a: Action, c: nat)
    requires Enabled(s, a) && |s.conns| <= c < |Next(cfg, s, a).conns|
    ensures !Next(cfg, s, a).conns[c].cancelled
  {
  }

  lemma AbortedOutside(cfg: Config, s: State, a: Action, v: nat)
    requires Enabled(s, a) && !a.Critical? && v < |s.tasks|
    ensures v < |Next(cfg, s, a).tasks|
    ensures Next(cfg, s, a).tasks[v].aborted == s.tasks[v].aborted
    ensures Next(cfg, s, a).tasks[v].conn == s.tasks[v].conn
  {
    if IsTaskAction(a) {
      TaskStepTasks(cfg, s, a);
      OwnKeepsFlags(cfg, s, a);
    } else {
      ConnStepTasks(cfg, s, a);
    }
  }

  /** The section that a handler is in tells the frame it handles. */
  lemma FindsMeans(cfg: Config, s: State, a: Action, v: nat)
    requires Enabled(s, a) && a.Critical? && TaskOk(cfg, s.tasks[a.t])
    ensures FindsCall(s, a, v) <==>
      s.tasks[a.t].h.doing.CancelCall? && IdOf(s.tasks[a.t]) in s.active && s.active[IdOf(s.tasks[a.t])] == v
  {
  }

  lemma AbortedStep(cfg: Config, s: State, a: Action, v: nat)
    requires Inv(cfg, s) && Enabled(s, a) && v < |s.tasks|
    ensures v < |Next(cfg, s, a).tasks|
    ensures Next(cfg, s, a).tasks[v].aborted <==> s.tasks[v].aborted || FindsCall(s, a, v)
    ensures Next(cfg, s, a).tasks[v].conn == s.tasks[v].conn
  {
    if a.Critical? {
      FindsMeans(cfg, s, a, v);
      CriticalAborts(cfg, s, a.t, v);
    } else {
      AbortedOutside(cfg, s, a, v);
    }
  }

  lemma OwnKeepsFlags(cfg: Config, s: State, a: Action)
    requires IsTaskAction(a) && Enabled(s, a) && !a.Critical?
    ensures OwnNext(cfg, s, a).aborted == s.tasks[a.t].aborted
    ensures OwnNext(cfg, s, a).conn == s.tasks[a.t].conn
    ensures !a.DecodeCall? ==> OwnNext(cfg, s, a).ctx == s.tasks[a.t].ctx
  {
  }

  lemma CriticalAborts(cfg: Config, s: State, t: nat, v: nat)
    requires Inv(cfg, s) && t < |s.tasks| && s.tasks[t].h.InLock? && v < |s.tasks|
    ensures var found :=
        s.tasks[t].h.doing.CancelCall? && IdOf(s.tasks[t]) in s.active && s.active[IdOf(s.tasks[t])] == v;
      var k, k' := s.tasks[v], CriticalNext(s, t).tasks[v];
      && k'.aborted == (k.aborted || found)
      && k'.ctx == (if found then Cancelled else k.ctx)
      && k'.conn == k.conn
      && (found ==> !k.ctx.Absent?)
  {
    var id := IdOf(s.tasks[t]);
    if id in s.active {
      assert IsEntry(cfg, s.tasks[s.active[id]], id);
      assert TaskOk(cfg, s.tasks[s.active[id]]);
    }
  }

  lemma ContextsCritical(cfg: Config, s: State, t: nat)
    requires Inv(cfg, s) && ContextsOk(s) && t < |s.tasks| && s.tasks[t].h.InLock?
    ensures ConnsInRange(CriticalNext(s, t)) && ContextsOk(CriticalNext(s, t))
  {
    forall v | 0 <= v < |s.tasks|
      ensures var k := CriticalNext(s, t).tasks[v]; k.conn < |s.conns| && ContextOk(CriticalNext(s, t), k)
    {
      CriticalAborts(cfg, s, t, v);
    }
  }

  /** Cancelling the connection reaches every context derived from it, and only those. */
  lemma ContextsConnCancelled(cfg: Config, s: State, c: nat)
    requires ConnsInRange(s) && ContextsOk(s) && c < |s.conns|
    ensures ConnsInRange(CancelConn(s, c)) && ContextsOk(CancelConn(s, c))
  {
  }

  lemma ContextsOfOne(s: State, s': State, t: nat, k: Task)
    requires ConnsInRange(s) && ContextsOk(s) && t < |s.tasks| && k.conn == s.tasks[t].conn && ContextOk(s, k)
    requires s'.tasks == s.tasks[t := k] && |s'.conns| == |s.conns|
    requires forall c :: 0 <= c < |s.conns| ==> s'.conns[c].cancelled == s.conns[c].cancelled
    ensures ConnsInRange(s') && ContextsOk(s')
  {
  }

  lemma ContextsLocal(cfg: Config, s: State, a: Action)
    requires Inv(cfg, s) && ContextsOk(s) && Enabled(s, a)
    requires IsTaskAction(a) && !a.Critical? && !a.CancelAfterFailure?
    ensures ConnsInRange(Next(cfg, s, a)) && ContextsOk(Next(cfg, s, a))
  {
    OwnContext(cfg, s, a);
    ContextsOfOne(s, Next(cfg, s, a), a.t, OwnNext(cfg, s, a));
  }

  /** Decoding derives the context from the connection's; no other step of the task touches it. */
  lemma OwnContext(cfg: Config, s: State, a: Action)
    requires IsTaskAction(a) && Enabled(s, a) && !a.Critical? && !a.CancelAfterFailure?
    requires TaskOk(cfg, s.tasks[a.t]) && ContextOk(s, s.tasks[a.t])
    ensures Next(cfg, s, a).tasks == s.tasks[a.t := OwnNext(cfg, s, a)]
    ensures OwnNext(cfg, s, a).conn == s.tasks[a.t].conn && ContextOk(s, OwnNext(cfg, s, a))
    ensures |Next(cfg, s, a).conns| == |s.conns|
    ensures forall c :: 0 <= c < |s.conns| ==> Next(cfg, s, a).conns[c].cancelled == s.conns[c].cancelled
  {
  }

  lemma ContextsFailure(cfg: Config, s: State, a: Action)
    requires Inv(cfg, s) && ContextsOk(s) && Enabled(s, a) && a.CancelAfterFailure?
    ensures ConnsInRange(Next(cfg, s, a)) && ContextsOk(Next(cfg, s, a))
  {
    var s' := Put(s, a.t, s.tasks[a.t].(w := Unlocking));
    assert ConnsInRange(s') && ContextsOk(s');
    ContextsConnCancelled(cfg, s', s.tasks[a.t].conn);
  }

  lemma ContextsConnCancels(cfg: Config, s: State, a: Action)
    requires Inv(cfg, s) && ContextsOk(s) && Enabled(s, a) && (a.ParentCancels? || a.LoopCancels?)
    ensures ConnsInRange(Next(cfg, s, a)) && ContextsOk(Next(cfg, s, a))
  {
    var s' := PutConn(s, a.c, s.conns[a.c].(loop := LoopNext(cfg, s.conns[a.c], |s.tasks|, a).loop));
    assert ConnsInRange(s') && ContextsOk(s');
    ContextsConnCancelled(cfg, s', a.c);
    assert Next(cfg, s, a).conns == CancelConn(s', a.c).conns;
    assert Next(cfg, s, a) == CancelConn(s', a.c);
  }

  lemma ContextsConnOther(cfg: Config, s: State, a: Action)
    requires ConnsInRange(s) && ContextsOk(s) && Enabled(s, a)
    requires !IsTaskAction(a) && !a.ParentCancels? && !a.LoopCancels?
    ensures ConnsInRange(Next(cfg, s, a)) && ContextsOk(Next(cfg, s, a))
  {
    var s' := Next(cfg, s, a);
    assert |s.conns| <= |s'.conns|;
    forall c | 0 <= c < |s.conns|
      ensures s'.conns[c].cancelled == s.conns[c].cancelled
    {
      ConnCancelledStep(cfg, s, a, c);
    }
    assert forall t :: 0 <= t < |s.tasks| ==> s'.tasks[t] == s.tasks[t];
  }

  lemma ContextsStep(cfg: Config, s: State, a: Action)
    requires Inv(cfg, s) && ContextsOk(s) && Enabled(s, a)
    ensures ConnsInRange(Next(cfg, s, a)) && ContextsOk(Next(cfg, s, a))
  {
    if !IsTaskAction(a) {
      if a.ParentCancels? || a.LoopCancels? {
        ContextsConnCancels(cfg, s, a);
      } else {
        ContextsConnOther(cfg, s, a);
      }
    } else if a.Critical? {
      ContextsCritical(cfg, s, a.t);
    } else if a.CancelAfterFailure? {
      ContextsFailure(cfg, s, a);
    } else {
      ContextsLocal(cfg, s, a);
    }
  }

  lemma {:induction false} ContextsReachable(cfg: Config, acts: seq<Action>)
    requires Legal(cfg, acts)
    ensures Inv(cfg, After(cfg, acts)) && ContextsOk(After(cfg, acts))
  {
    Reachable(cfg, acts);
    if acts != [] {
      ContextsReachable(cfg, acts[..|acts| - 1]);
      ContextsStep(cfg, After(cfg, acts[..|acts| - 1]), acts[|acts| - 1]);
    }
  }

  // ---------- Whole runs ----------

  predicate CancelsConnAt(cfg: Config, acts: seq<Action>, i: nat, c: nat)
    requires Legal(cfg, acts) && i < |acts|
  {
    StateAtStep(cfg, acts, i);
    CancelsConn(StateAt(cfg, acts, i), acts[i], c)
  }

  predicate FindsCallAt(cfg: Config, acts: seq<Action>, i: nat, v: nat)
    requires Legal(cfg, acts) && i < |acts|
  {
    StateAtStep(cfg, acts, i);
    FindsCall(StateAt(cfg, acts, i), acts[i], v)
  }

  lemma {:induction false} FrontAt(cfg: Config, acts: seq<Action>, i: nat)
    requires Legal(cfg, acts) && i < |acts|
    ensures StateAt(cfg, acts[..|acts| - 1], i) == StateAt(cfg, acts, i)
    ensures i == |acts| - 1 ==> StateAt(cfg, acts, i) == After(cfg, acts[..|acts| - 1])
  {
    assert acts[..|acts| - 1][..i] == acts[..i];
  }

  /** The steps of a run that cancel connection c are those of its front, and perhaps its last. */
  lemma {:induction false} CancelsFront(cfg: Config, acts: seq<Action>, c: nat)
    requires Legal(cfg, acts) && acts != []
    ensures var n := |acts| - 1;
      (exists i :: 0 <= i < |acts| && CancelsConnAt(cfg, acts, i, c)) <==>
      (exists i :: 0 <= i < n && CancelsConnAt(cfg, acts[..n], i, c)) || CancelsConn(After(cfg, acts[..n]), acts[n], c)
  {
    var n := |acts| - 1;
    forall i | 0 <= i <= n
      ensures i < n ==> CancelsConnAt(cfg, acts[..n], i, c) == CancelsConnAt(cfg, acts, i, c)
      ensures i == n ==> CancelsConnAt(cfg, acts, i, c) == CancelsConn(After(cfg, acts[..n]), acts[n], c)
    {
      FrontAt(cfg, acts, i);
    }
    if CancelsConn(After(cfg, acts[..n]), acts[n], c) {
      assert CancelsConnAt(cfg, acts, n, c);
    }
  }

  /** The history behind a cancelled connection: some step of the run cancelled it. */
  lemma {:induction false} ConnHistory(cfg: Config, acts: seq<Action>, c: nat)
    requires Legal(cfg, acts) && c < |After(cfg, acts).conns|
    ensures After(cfg, acts).conns[c].cancelled <==> exists i :: 0 <= i < |acts| && CancelsConnAt(cfg, acts, i, c)
  {
    if acts != [] {
      var n := |acts| - 1;
      var front := acts[..n];
      var s := After(cfg, front);
      CancelsFront(cfg, acts, c);
      if c < |s.conns| {
        ConnHistory(cfg, front, c);
        ConnCancelledStep(cfg, s, acts[n], c);
      } else {
        NewConnLive(cfg, s, acts[n], c);
        NoEarlierCancel(cfg, acts, c);
      }
    }
  }

  lemma {:induction false} ConnsGrow(cfg: Config, acts: seq<Action>, i: nat)
    requires Legal(cfg, acts) && i <= |acts|
    ensures |StateAt(cfg, acts, i).conns| <= |After(cfg, acts).conns|
    ensures |StateAt(cfg, acts, i).tasks| <= |After(cfg, acts).tasks|
    decreases |acts| - i
  {
    if i == |acts| {
      StateAtEnds(cfg, acts);
    } else {
      StateAtStep(cfg, acts, i);
      ConnsGrow(cfg, acts, i + 1);
      var s := StateAt(cfg, acts, i);
      if !acts[i].Critical? {
        StepTasks(cfg, s, acts[i]);
      }
    }
  }

  /** Nothing can have cancelled a connection before it was opened. */
  lemma {:induction false} NoEarlierCancel(cfg: Config, acts: seq<Action>, c: nat)
    requires Legal(cfg, acts) && acts != [] && |After(cfg, acts[..|acts| - 1]).conns| <= c
    ensures forall i :: 0 <= i < |acts| ==> !CancelsConnAt(cfg, acts, i, c)
  {
    forall i | 0 <= i < |acts|
      ensures !CancelsConnAt(cfg, acts, i, c)
    {
      StateAtStep(cfg, acts, i);
      FrontAt(cfg, acts, i);
      ConnsGrow(cfg, acts[..|acts| - 1], i);
      ReachableAt(cfg, acts, i);
    }
  }

  /** The steps of a run that find call v are those of its front, and perhaps its last. */
  lemma {:induction false} FindsFront(cfg: Config, acts: seq<Action>, v: nat)
    requires Legal(cfg, acts) && acts != []
    ensures var n := |acts| - 1;
      (exists i :: 0 <= i < |acts| && FindsCallAt(cfg, acts, i, v)) <==>
      (exists i :: 0 <= i < n && FindsCallAt(cfg, acts[..n], i, v)) || FindsCall(After(cfg, acts[..n]), acts[n], v)
  {
    var n := |acts| - 1;
    forall i | 0 <= i <= n
      ensures i < n ==> FindsCallAt(cfg, acts[..n], i, v) == FindsCallAt(cfg, acts, i, v)
      ensures i == n ==> FindsCallAt(cfg, acts, i, v) == FindsCall(After(cfg, acts[..n]), acts[n], v)
    {
      FrontAt(cfg, acts, i);
    }
    if FindsCall(After(cfg, acts[..n]), acts[n], v) {
      assert FindsCallAt(cfg, acts, n, v);
    }
  }

  /** The history behind an aborted call: some .cancel of the run found it. */
  lemma {:induction false} AbortHistory(cfg: Config, acts: seq<Action>, v: nat)
    requires Legal(cfg, acts) && v < |After(cfg, acts).tasks|
    ensures After(cfg, acts).tasks[v].aborted <==> exists i :: 0 <= i < |acts| && FindsCallAt(cfg, acts, i, v)
  {
    if acts != [] {
      var n := |acts| - 1;
      var front := acts[..n];
      var s := After(cfg, front);
      Reachable(cfg, front);
      FindsFront(cfg, acts, v);
      if v < |s.tasks| {
        AbortHistory(cfg, front, v);
        AbortedStep(cfg, s, acts[n], v);
      } else {
        FreshTask(cfg, s, acts[n]);
        NotYetFound(cfg, acts, v);
      }
    }
  }

  lemma FreshTask(cfg: Config, s: State, a: Action)
    requires Enabled(s, a)
    ensures |s.tasks| < |Next(cfg, s, a).tasks| ==>
      |Next(cfg, s, a).tasks| == |s.tasks| + 1 && !Next(cfg, s, a).tasks[|s.tasks|].aborted
  {
    if !a.Critical? {
      StepTasks(cfg, s, a);
    }
  }

  lemma {:induction false} NotYetFound(cfg: Config, acts: seq<Action>, v: nat)
    requires Legal(cfg, acts) && acts != [] && |After(cfg, acts[..|acts| - 1]).tasks| <= v
    ensures forall i :: 0 <= i < |acts| ==> !FindsCallAt(cfg, acts, i, v)
  {
    forall i | 0 <= i < |acts|
      ensures !FindsCallAt(cfg, acts, i, v)
    {
      StateAtStep(cfg, acts, i);
      FrontAt(cfg, acts, i);
      ConnsGrow(cfg, acts[..|acts| - 1], i);
      ReachableAt(cfg, acts, i);
    }
  }

  /**
    In every run, the derived context of a call is cancelled if and only if some step of the run
    cancelled its connection (loop exit, failed write, or parent) or was a .cancel that found the call.
   */
  lemma {:induction false} CancelledIff(cfg: Config, acts: seq<Action>, t: nat)
    requires Legal(cfg, acts) && t < |After(cfg, acts).tasks|
    requires !After(cfg, acts).tasks[t].ctx.Absent?
    ensures After(cfg, acts).tasks[t].ctx.Cancelled? <==>
      || (exists i :: 0 <= i < |acts| && CancelsConnAt(cfg, acts, i, After(cfg, acts).tasks[t].conn))
      || (exists i :: 0 <= i < |acts| && FindsCallAt(cfg, acts, i, t))
  {
    ContextsReachable(cfg, acts);
    ConnHistory(cfg, acts, After(cfg, acts).tasks[t].conn);
    AbortHistory(cfg, acts, t);
  }
}
