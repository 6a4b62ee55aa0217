/** What every reachable state of the call protocol satisfies, task by task and lock by lock. */
module CallInvariants {
  import opened Options
  import opened CallProtocol

  /** The program counters that a call of each kind can reach after its decoding. */
  predicate KindFits(kind: Kind, h: HandlerPc) {
    match h
    case WantLock(sec) => KindOfSection(sec) == kind
    case InLock(sec) => KindOfSection(sec) == kind
    case Leaving(sec) => KindOfSection(sec) == kind
    case Running => kind.PlainKind?
    case Parked => kind.PlainKind?
    case Sending(_, FromCancel) => kind.CancelKind?
    case Sending(_, FromUnknown) => kind.UnknownKind?
    case Sending(_, _) => kind.PlainKind?
    case _ => true
  }

  function KindOfSection(sec: Section): Kind {
    if sec.CancelCall? then CancelKind else PlainKind
  }

  predicate Undecoded(h: HandlerPc) {
    h.NotStarted? || h.NoHandler? || h.Start?
  }

  /** Messages the dispatcher itself has had received so far; None where the call handler decides. */
  function OwnReplies(kind: Kind, id: string, h: HandlerPc): Option<seq<Message>> {
    if Undecoded(h) then Some([]) else
    match kind
    case Undecodable => Some([])
    case CancelKind =>
      Some(if h.WantLock? || h.InLock? || h.Sending? then [] else [OkReply(id)])
    case UnknownKind =>
      Some(if h.Sending? then [] else [KoReply(id, UNKNOWN_METHOD)])
    case PlainKind =>
      if h == WantLock(Register) || h == InLock(Register) || h == Leaving(Register) then Some([]) else None
  }

  /** The part of the invariant that looks at one task only. */
  predicate TaskOk(cfg: Config, k: Task) {
    var kind := KindOf(cfg, k.frame);
    && TypeOf(cfg, k.frame).Some?
    && (!k.h.NotStarted? && !k.h.NoHandler? ==> TypeOf(cfg, k.frame) == Some(CALL_MESSAGE_TYPE))
    && (k.h.NoHandler? ==> TypeOf(cfg, k.frame) != Some(CALL_MESSAGE_TYPE) && k.w.End?)
    && (k.h.NotStarted? <==> k.w.Unstarted?)
    && (k.w.End? ==> k.h.Closed? || k.h.NoHandler?)
    && KindFits(kind, k.h)
    && (kind.Undecodable? ==> Undecoded(k.h) || k.h.Returned? || k.h.Closed?)
    && (k.h.Sending? && k.h.from.FromCancel? ==> k.h.msg == OkReply(IdOf(k)))
    && (k.h.Sending? && k.h.from.FromUnknown? ==> k.h.msg == KoReply(IdOf(k), UNKNOWN_METHOD))
    && (var own := OwnReplies(kind, IdOf(k), k.h); own.Some? ==> k.sent == own.value)
    && (k.sent == [] ==> k.w.Unstarted? || k.w.Recv? || k.w.End?)
    && (k.ctx.Absent? <==> Undecoded(k.h) || !kind.PlainKind?)
    && k.closes == (if k.h.Closed? then 1 else 0)
  }

  ghost predicate TasksOk(cfg: Config, s: State) {
    forall t :: 0 <= t < |s.tasks| ==> TaskOk(cfg, s.tasks[t]) && s.tasks[t].conn < |s.conns|
  }

  /** activeLock is owned exactly by the handler that is in one of its critical sections. */
  ghost predicate LockOk(s: State) {
    && (s.lock.Some? ==> s.lock.value < |s.tasks|)
    && (forall t :: 0 <= t < |s.tasks| ==> (HoldsLock(s.tasks[t].h) <==> s.lock == Some(t)))
  }

  /** The msgWriteLock of a connection is owned exactly by the writer that is writing to it. */
  ghost predicate WriteLocksOk(s: State)
    requires forall t :: 0 <= t < |s.tasks| ==> s.tasks[t].conn < |s.conns|
  {
    && (forall c :: 0 <= c < |s.conns| && s.conns[c].writeLock.Some? ==>
          s.conns[c].writeLock.value < |s.tasks| && s.tasks[s.conns[c].writeLock.value].conn == c)
    && (forall t :: 0 <= t < |s.tasks| ==>
          (HoldsWriteLock(s.tasks[t].w) <==> s.conns[s.tasks[t].conn].writeLock == Some(t)))
  }

  /** An entry of activeCalls always belongs to a call in flight with that ID that no .cancel has found. */
  ghost predicate RegistrySound(cfg: Config, s: State) {
    forall id :: id in s.active ==> s.active[id] < |s.tasks| && IsEntry(cfg, s.tasks[s.active[id]], id)
  }

  predicate IsEntry(cfg: Config, k: Task, id: string) {
    KindOf(cfg, k.frame).PlainKind? && IdOf(k) == id && InFlight(k.h) && !k.aborted
  }

  /** Only a call that has been in flight can have been found by a .cancel. */
  predicate AbortOk(k: Task) {
    k.aborted ==> InFlight(k.h) || k.h == Leaving(Deregister) || k.h.Returned? || k.h.Closed?
  }

  ghost predicate Inv(cfg: Config, s: State) {
    && TasksOk(cfg, s)
    && LockOk(s)
    && WriteLocksOk(s)
    && RegistrySound(cfg, s)
    && (forall t :: 0 <= t < |s.tasks| ==> AbortOk(s.tasks[t]))
  }

  lemma InvInit(cfg: Config)
    ensures Inv(cfg, INIT)
  {
  }

  // ---------- One task ----------

  lemma DecodeKeepsTaskOk(cfg: Config, k: Task, parentCancelled: bool, a: Action)
    requires TaskOk(cfg, k) && AbortOk(k) && (a.LookUpHandler? || a.DecodeCall?) && LocallyEnabled(k, a)
    ensures var k' := HandlerNext(cfg, k, parentCancelled, a);
      && TaskOk(cfg, k') && AbortOk(k')
  {
  }

  lemma SendKeepsTaskOk(cfg: Config, k: Task, parentCancelled: bool, a: Action)
    requires TaskOk(cfg, k) && AbortOk(k) && a.Rendezvous? && LocallyEnabled(k, a)
    ensures var k' := HandlerNext(cfg, k, parentCancelled, a);
      && TaskOk(cfg, k') && AbortOk(k')
  {
  }

  lemma CallKeepsTaskOk(cfg: Config, k: Task, parentCancelled: bool, a: Action)
    requires TaskOk(cfg, k) && AbortOk(k)
    requires IsTaskAction(a) && !IsWriterAction(a) && LocallyEnabled(k, a)
    requires !a.Critical? && !a.LookUpHandler? && !a.DecodeCall? && !a.Rendezvous?
    ensures var k' := HandlerNext(cfg, k, parentCancelled, a);
      && TaskOk(cfg, k') && AbortOk(k')
  {
  }

  lemma HandlerKeepsTaskOk(cfg: Config, k: Task, parentCancelled: bool, a: Action)
    requires TaskOk(cfg, k) && AbortOk(k)
    requires IsTaskAction(a) && !IsWriterAction(a) && !a.Critical? && LocallyEnabled(k, a)
    ensures var k' := HandlerNext(cfg, k, parentCancelled, a);
      && TaskOk(cfg, k') && AbortOk(k')
  {
    if a.LookUpHandler? || a.DecodeCall? {
      DecodeKeepsTaskOk(cfg, k, parentCancelled, a);
    } else if a.Rendezvous? {
      SendKeepsTaskOk(cfg, k, parentCancelled, a);
    } else {
      CallKeepsTaskOk(cfg, k, parentCancelled, a);
    }
  }

  lemma WriterKeepsTaskOk(cfg: Config, k: Task, a: Action)
    requires TaskOk(cfg, k) && AbortOk(k)
    requires IsWriterAction(a) && LocallyEnabled(k, a)
    ensures var k' := WriterNext(k, a);
      && TaskOk(cfg, k') && AbortOk(k')
  {
  }

  // ---------- Changes that spread over the tasks ----------

  /** k' is k, or k with its live context cancelled. */
  predicate CancelledAtMost(k: Task, k': Task) {
    k' == k || (k.ctx.Live? && k' == k.(ctx := Cancelled))
  }

  lemma CancelledAtMostOk(cfg: Config, k: Task, k': Task)
    requires TaskOk(cfg, k) && CancelledAtMost(k, k')
    ensures TaskOk(cfg, k')
  {
  }

  /** A step of a connection may cancel live contexts, and may start a task. */
  lemma ConnStepTasks(cfg: Config, s: State, a: Action)
    requires Enabled(s, a) && !IsTaskAction(a)
    ensures var s' := Next(cfg, s, a);
      && |s.conns| <= |s'.conns|
      && |s.tasks| <= |s'.tasks| <= |s.tasks| + 1
      && s'.active == s.active
      && (forall t :: 0 <= t < |s.tasks| ==> CancelledAtMost(s.tasks[t], s'.tasks[t]))
      && (|s'.tasks| > |s.tasks| ==>
            (&& a.LoopHandles? && s.conns[a.c].loop.Got? && s.conns[a.c].loop.res.Data?
             && TypeOf(cfg, s.conns[a.c].loop.res.frame).Some?
             && s'.tasks[|s.tasks|] == NewTask(a.c, |s.conns[a.c].dispatched|, s.conns[a.c].loop.res.frame)))
  {
  }

  /** Outside a critical section a step of a task changes that task and may cancel live contexts. */
  lemma TaskStepTasks(cfg: Config, s: State, a: Action)
    requires IsTaskAction(a) && Enabled(s, a) && !a.Critical?
    ensures var s' := Next(cfg, s, a);
      && |s.conns| == |s'.conns| && |s'.tasks| == |s.tasks| && s'.active == s.active
      && (forall t :: 0 <= t < |s.tasks| && t != a.t ==> CancelledAtMost(s.tasks[t], s'.tasks[t]))
      && CancelledAtMost(OwnNext(cfg, s, a), s'.tasks[a.t])
  {
    var own := Put(s, a.t, OwnNext(cfg, s, a));
    if a.CancelAfterFailure? {
      assert Next(cfg, s, a) == CancelConn(own, s.tasks[a.t].conn);
    } else {
      assert Next(cfg, s, a).tasks == own.tasks;
    }
  }

  /** Outside a critical section a step changes its own task, may cancel live contexts, may start a task. */
  lemma StepTasks(cfg: Config, s: State, a: Action)
    requires Enabled(s, a) && !a.Critical?
    ensures var s' := Next(cfg, s, a);
      && |s.conns| <= |s'.conns|
      && |s.tasks| <= |s'.tasks| <= |s.tasks| + 1
      && s'.active == s.active
      && (forall t :: 0 <= t < |s.tasks| && !(IsTaskAction(a) && t == a.t) ==> CancelledAtMost(s.tasks[t], s'.tasks[t]))
      && (IsTaskAction(a) ==> |s'.tasks| == |s.tasks| && CancelledAtMost(OwnNext(cfg, s, a), s'.tasks[a.t]))
      && (|s'.tasks| > |s.tasks| ==>
            (&& a.LoopHandles? && s.conns[a.c].loop.Got? && s.conns[a.c].loop.res.Data?
             && TypeOf(cfg, s.conns[a.c].loop.res.frame).Some?
             && s'.tasks[|s.tasks|] == NewTask(a.c, |s.conns[a.c].dispatched|, s.conns[a.c].loop.res.frame)))
  {
    if IsTaskAction(a) {
      TaskStepTasks(cfg, s, a);
    } else {
      ConnStepTasks(cfg, s, a);
    }
  }

  function OwnNext(cfg: Config, s: State, a: Action): Task
    requires IsTaskAction(a) && Enabled(s, a) && !a.Critical?
  {
    var k := s.tasks[a.t];
    if IsWriterAction(a) then WriterNext(k, a) else HandlerNext(cfg, k, s.conns[k.conn].cancelled, a)
  }

  // ---------- Each part of the invariant, over one step ----------

  lemma TasksOkStep(cfg: Config, s: State, a: Action)
    requires Inv(cfg, s) && Enabled(s, a) && !a.Critical?
    ensures TasksOk(cfg, Next(cfg, s, a))
  {
    var s' := Next(cfg, s, a);
    StepTasks(cfg, s, a);
    forall t | 0 <= t < |s'.tasks|
      ensures TaskOk(cfg, s'.tasks[t]) && s'.tasks[t].conn < |s'.conns|
    {
      if t == |s.tasks| {
      } else if IsTaskAction(a) && t == a.t {
        OwnStepOk(cfg, s, a);
        CancelledAtMostOk(cfg, OwnNext(cfg, s, a), s'.tasks[t]);
      } else {
        CancelledAtMostOk(cfg, s.tasks[t], s'.tasks[t]);
      }
    }
  }

  lemma OwnStepOk(cfg: Config, s: State, a: Action)
    requires IsTaskAction(a) && Enabled(s, a) && !a.Critical?
    requires TaskOk(cfg, s.tasks[a.t]) && AbortOk(s.tasks[a.t])
    ensures TaskOk(cfg, OwnNext(cfg, s, a)) && AbortOk(OwnNext(cfg, s, a))
    ensures OwnNext(cfg, s, a).conn == s.tasks[a.t].conn
  {
    var k := s.tasks[a.t];
    if IsWriterAction(a) {
      WriterKeepsTaskOk(cfg, k, a);
    } else {
      HandlerKeepsTaskOk(cfg, k, s.conns[k.conn].cancelled, a);
    }
  }

  /** activeLock and its holder change together. */
  lemma OwnLock(cfg: Config, s: State, a: Action)
    requires IsTaskAction(a) && Enabled(s, a) && !a.Critical?
    ensures HoldsLock(OwnNext(cfg, s, a).h) == (a.Lock? || (HoldsLock(s.tasks[a.t].h) && !a.Unlock?))
    ensures Next(cfg, s, a).lock == if a.Lock? then Some(a.t) else if a.Unlock? then None else s.lock
    ensures a.Lock? ==> s.lock.None?
    ensures a.Unlock? ==> HoldsLock(s.tasks[a.t].h)
  {
  }

  lemma LockOkStep(cfg: Config, s: State, a: Action)
    requires LockOk(s) && Enabled(s, a) && !a.Critical?
    ensures LockOk(Next(cfg, s, a))
  {
    StepTasks(cfg, s, a);
    var s' := Next(cfg, s, a);
    if IsTaskAction(a) {
      OwnLock(cfg, s, a);
    } else {
      assert s'.lock == s.lock;
    }
  }

  function WriteLockAfter(s: State, a: Action, c: nat): Option<nat>
    requires IsTaskAction(a) && Enabled(s, a) && c < |s.conns|
  {
    if c != s.tasks[a.t].conn then s.conns[c].writeLock
    else if a.LockWrite? then Some(a.t)
    else if a.UnlockWrite? then None
    else s.conns[c].writeLock
  }

  /** A msgWriteLock and its holder change together. */
  lemma OwnWriteLock(cfg: Config, s: State, a: Action)
    requires IsTaskAction(a) && Enabled(s, a) && !a.Critical? && TaskOk(cfg, s.tasks[a.t])
    ensures HoldsWriteLock(OwnNext(cfg, s, a).w) ==
      (a.LockWrite? || (HoldsWriteLock(s.tasks[a.t].w) && !a.UnlockWrite?))
    ensures OwnNext(cfg, s, a).conn == s.tasks[a.t].conn
    ensures |Next(cfg, s, a).conns| == |s.conns|
    ensures forall c :: 0 <= c < |s.conns| ==> Next(cfg, s, a).conns[c].writeLock == WriteLockAfter(s, a, c)
    ensures a.LockWrite? ==> s.conns[s.tasks[a.t].conn].writeLock.None?
    ensures a.UnlockWrite? ==> HoldsWriteLock(s.tasks[a.t].w)
  {
  }

  lemma ConnStepWriteLocks(cfg: Config, s: State, a: Action)
    requires Enabled(s, a) && !IsTaskAction(a)
    ensures forall c :: 0 <= c < |s.conns| ==> Next(cfg, s, a).conns[c].writeLock == s.conns[c].writeLock
    ensures forall c :: |s.conns| <= c < |Next(cfg, s, a).conns| ==> Next(cfg, s, a).conns[c].writeLock.None?
  {
  }

  lemma WriteLocksStep(cfg: Config, s: State, a: Action)
    requires TasksOk(cfg, s) && WriteLocksOk(s) && Enabled(s, a) && !a.Critical?
    requires TasksOk(cfg, Next(cfg, s, a))
    ensures WriteLocksOk(Next(cfg, s, a))
  {
    if IsTaskAction(a) {
      WriteLocksTaskStep(cfg, s, a);
    } else {
      StepTasks(cfg, s, a);
      ConnStepWriteLocks(cfg, s, a);
      WriteLocksSame(s, Next(cfg, s, a));
    }
  }

  ghost predicate ConnsInRange(s: State) {
    forall t :: 0 <= t < |s.tasks| ==> s.tasks[t].conn < |s.conns|
  }

  lemma WriteLocksSame(s: State, s': State)
    requires ConnsInRange(s) && ConnsInRange(s') && WriteLocksOk(s)
    requires |s.tasks| <= |s'.tasks| && |s.conns| <= |s'.conns|
    requires forall t :: 0 <= t < |s.tasks| ==> CancelledAtMost(s.tasks[t], s'.tasks[t])
    requires forall t :: |s.tasks| <= t < |s'.tasks| ==> s'.tasks[t].w.Unstarted?
    requires forall c :: 0 <= c < |s.conns| ==> s'.conns[c].writeLock == s.conns[c].writeLock
    requires forall c :: |s.conns| <= c < |s'.conns| ==> s'.conns[c].writeLock.None?
    ensures WriteLocksOk(s')
  {
  }

  /** Task t acquires or releases the lock of its connection, or does neither. */
  lemma WriteLocksMove(s: State, s': State, t: nat, locks: bool, unlocks: bool)
    requires ConnsInRange(s) && ConnsInRange(s') && WriteLocksOk(s)
    requires t < |s.tasks| == |s'.tasks| && |s.conns| == |s'.conns|
    requires forall u :: 0 <= u < |s.tasks| ==> s'.tasks[u].conn == s.tasks[u].conn
    requires forall u :: 0 <= u < |s.tasks| && u != t ==> s'.tasks[u].w == s.tasks[u].w
    requires HoldsWriteLock(s'.tasks[t].w) == (locks || (HoldsWriteLock(s.tasks[t].w) && !unlocks))
    requires locks ==> s.conns[s.tasks[t].conn].writeLock.None?
    requires unlocks ==> HoldsWriteLock(s.tasks[t].w)
    requires forall c :: 0 <= c < |s.conns| ==>
      s'.conns[c].writeLock == if c != s.tasks[t].conn then s.conns[c].writeLock
                               else if locks then Some(t)
                               else if unlocks then None
                               else s.conns[c].writeLock
    ensures WriteLocksOk(s')
  {
  }

  lemma WriteLocksTaskStep(cfg: Config, s: State, a: Action)
    requires IsTaskAction(a) && Enabled(s, a) && TaskOk(cfg, s.tasks[a.t]) && !a.Critical?
    requires ConnsInRange(s) && ConnsInRange(Next(cfg, s, a)) && WriteLocksOk(s)
    ensures WriteLocksOk(Next(cfg, s, a))
  {
    StepTasks(cfg, s, a);
    OwnWriteLock(cfg, s, a);
    WriteLocksMove(s, Next(cfg, s, a), a.t, a.LockWrite?, a.UnlockWrite?);
  }

  lemma OwnEntry(cfg: Config, s: State, a: Action, id: string)
    requires IsTaskAction(a) && Enabled(s, a) && !a.Critical?
    requires TaskOk(cfg, s.tasks[a.t]) && IsEntry(cfg, s.tasks[a.t], id)
    ensures IsEntry(cfg, OwnNext(cfg, s, a), id)
  {
  }

  lemma RegistryStep(cfg: Config, s: State, a: Action)
    requires TasksOk(cfg, s) && RegistrySound(cfg, s) && Enabled(s, a) && !a.Critical?
    ensures RegistrySound(cfg, Next(cfg, s, a))
  {
    StepTasks(cfg, s, a);
    forall id | id in s.active
      ensures IsEntry(cfg, Next(cfg, s, a).tasks[s.active[id]], id)
    {
      if IsTaskAction(a) && s.active[id] == a.t {
        OwnEntry(cfg, s, a, id);
      }
    }
  }

  lemma AbortStep(cfg: Config, s: State, a: Action)
    requires Inv(cfg, s) && Enabled(s, a) && !a.Critical?
    ensures forall t :: 0 <= t < |Next(cfg, s, a).tasks| ==> AbortOk(Next(cfg, s, a).tasks[t])
  {
    StepTasks(cfg, s, a);
    if IsTaskAction(a) {
      OwnStepOk(cfg, s, a);
    }
  }

  // ---------- The critical sections ----------

  /** A map operation changes nothing but the handler's pc and the context of an aborted call. */
  lemma CriticalTasks(s: State, t: nat)
    requires t < |s.tasks| && s.tasks[t].h.InLock?
    ensures var s' := CriticalNext(s, t);
      && s'.conns == s.conns && s'.lock == s.lock && |s'.tasks| == |s.tasks|
      && (forall u :: 0 <= u < |s.tasks| ==>
            s'.tasks[u] == s.tasks[u].(h := s'.tasks[u].h, ctx := s'.tasks[u].ctx, aborted := s'.tasks[u].aborted))
      && (forall u :: 0 <= u < |s.tasks| && u != t ==> s'.tasks[u].h == s.tasks[u].h)
  {
  }

  /** The locks depend on who is inside which section only. */
  lemma SameLocks(s: State, s': State)
    requires ConnsInRange(s) && LockOk(s) && WriteLocksOk(s)
    requires s'.conns == s.conns && s'.lock == s.lock && |s'.tasks| == |s.tasks|
    requires forall t :: 0 <= t < |s.tasks| ==>
      && HoldsLock(s'.tasks[t].h) == HoldsLock(s.tasks[t].h)
      && s'.tasks[t].w == s.tasks[t].w && s'.tasks[t].conn == s.tasks[t].conn
    ensures ConnsInRange(s') && LockOk(s') && WriteLocksOk(s')
  {
  }

  /** A map operation that changes one task and keeps it on its side of the lock. */
  lemma OneTaskKeepsInv(cfg: Config, s: State, s': State, t: nat, k: Task)
    requires Inv(cfg, s) && t < |s.tasks| && s'.tasks == s.tasks[t := k]
    requires s'.conns == s.conns && s'.lock == s.lock
    requires TaskOk(cfg, k) && AbortOk(k) && k.conn == s.tasks[t].conn && k.w == s.tasks[t].w
    requires HoldsLock(k.h) == HoldsLock(s.tasks[t].h)
    requires RegistrySound(cfg, s')
    ensures Inv(cfg, s')
  {
    SameLocks(s, s');
    assert forall u :: 0 <= u < |s.tasks| ==> TaskOk(cfg, s'.tasks[u]) && AbortOk(s'.tasks[u]);
  }

  lemma RegisteredOk(cfg: Config, k: Task)
    requires TaskOk(cfg, k) && AbortOk(k) && k.h == InLock(Register)
    ensures var k' := k.(h := Leaving(Register)); TaskOk(cfg, k') && AbortOk(k') && IsEntry(cfg, k', IdOf(k))
  {
  }

  lemma RegisterStep(cfg: Config, s: State, t: nat)
    requires Inv(cfg, s) && t < |s.tasks| && s.tasks[t].h == InLock(Register)
    ensures Inv(cfg, CriticalNext(s, t))
  {
    RegisteredOk(cfg, s.tasks[t]);
    assert forall id :: id in s.active ==> s.active[id] != t;
    OneTaskKeepsInv(cfg, s, CriticalNext(s, t), t, s.tasks[t].(h := Leaving(Register)));
  }

  lemma DeregisteredOk(cfg: Config, k: Task)
    requires TaskOk(cfg, k) && AbortOk(k) && k.h == InLock(Deregister)
    ensures var k' := k.(h := Leaving(Deregister)); TaskOk(cfg, k') && AbortOk(k')
  {
  }

  lemma DeregisterStep(cfg: Config, s: State, t: nat)
    requires Inv(cfg, s) && t < |s.tasks| && s.tasks[t].h == InLock(Deregister)
    ensures Inv(cfg, CriticalNext(s, t))
  {
    DeregisteredOk(cfg, s.tasks[t]);
    assert forall id :: id in s.active && id != IdOf(s.tasks[t]) ==> s.active[id] != t;
    OneTaskKeepsInv(cfg, s, CriticalNext(s, t), t, s.tasks[t].(h := Leaving(Deregister)));
  }

  lemma AbortedOk(cfg: Config, k: Task, id: string)
    requires TaskOk(cfg, k) && IsEntry(cfg, k, id)
    ensures var k' := k.(ctx := Cancelled, aborted := true); TaskOk(cfg, k') && AbortOk(k')
  {
  }

  lemma AbortEntryRegistry(cfg: Config, s: State, id: string)
    requires RegistrySound(cfg, s) && id in s.active
    ensures RegistrySound(cfg, AbortEntry(s, id))
  {
    forall other | other in s.active && other != id
      ensures s.active[other] < |s.tasks| && s.active[other] != s.active[id]
    {
      assert IsEntry(cfg, s.tasks[s.active[other]], other) && IsEntry(cfg, s.tasks[s.active[id]], id);
    }
  }

  lemma AbortEntryKeepsInv(cfg: Config, s: State, id: string)
    requires Inv(cfg, s) && id in s.active
    ensures Inv(cfg, AbortEntry(s, id))
  {
    var v := s.active[id];
    AbortedOk(cfg, s.tasks[v], id);
    AbortEntryRegistry(cfg, s, id);
    OneTaskKeepsInv(cfg, s, AbortEntry(s, id), v, s.tasks[v].(ctx := Cancelled, aborted := true));
  }

  lemma CancelReplyOk(cfg: Config, k: Task)
    requires TaskOk(cfg, k) && AbortOk(k) && k.h == InLock(CancelCall)
    ensures var k' := k.(h := Sending(OkReply(IdOf(k)), FromCancel)); TaskOk(cfg, k') && AbortOk(k')
  {
  }

  lemma CancelReplies(cfg: Config, s: State, t: nat)
    requires Inv(cfg, s) && t < |s.tasks| && s.tasks[t].h == InLock(CancelCall)
    ensures Inv(cfg, Put(s, t, s.tasks[t].(h := Sending(OkReply(IdOf(s.tasks[t])), FromCancel))))
  {
    var k := s.tasks[t];
    var k' := k.(h := Sending(OkReply(IdOf(k)), FromCancel));
    CancelReplyOk(cfg, k);
    assert !InFlight(k.h) && HoldsLock(k.h) && HoldsLock(k'.h);
    PutKeepsInv(cfg, s, t, k');
  }

  /** Changing only the pc of a handler that is no entry, inside or outside the lock as before. */
  lemma PutKeepsInv(cfg: Config, s: State, t: nat, k: Task)
    requires Inv(cfg, s) && t < |s.tasks|
    requires TaskOk(cfg, k) && AbortOk(k) && k == s.tasks[t].(h := k.h)
    requires !InFlight(s.tasks[t].h) && HoldsLock(k.h) == HoldsLock(s.tasks[t].h)
    ensures Inv(cfg, Put(s, t, k))
  {
    assert forall id :: id in s.active ==> s.active[id] != t;
    OneTaskKeepsInv(cfg, s, Put(s, t, k), t, k);
  }

  lemma CancelStep(cfg: Config, s: State, t: nat)
    requires Inv(cfg, s) && t < |s.tasks| && s.tasks[t].h == InLock(CancelCall)
    ensures Inv(cfg, CriticalNext(s, t))
  {
    var id := IdOf(s.tasks[t]);
    if id in s.active {
      assert IsEntry(cfg, s.tasks[s.active[id]], id);
      AbortEntryKeepsInv(cfg, s, id);
      CancelReplies(cfg, AbortEntry(s, id), t);
    } else {
      CancelReplies(cfg, s, t);
    }
  }

  lemma InvStep(cfg: Config, s: State, a: Action)
    requires Inv(cfg, s) && Enabled(s, a)
    ensures Inv(cfg, Next(cfg, s, a))
  {
    if a.Critical? {
      match s.tasks[a.t].h.doing
      case Register => RegisterStep(cfg, s, a.t);
      case Deregister => DeregisterStep(cfg, s, a.t);
      case CancelCall => CancelStep(cfg, s, a.t);
    } else {
      TasksOkStep(cfg, s, a);
      LockOkStep(cfg, s, a);
      WriteLocksStep(cfg, s, a);
      RegistryStep(cfg, s, a);
      AbortStep(cfg, s, a);
    }
  }

  /** Every state of every run satisfies the invariant. */
  lemma {:induction false} Reachable(cfg: Config, acts: seq<Action>)
    requires Legal(cfg, acts)
    ensures Inv(cfg, After(cfg, acts))
  {
    if acts == [] {
      InvInit(cfg);
    } else {
      Reachable(cfg, acts[..|acts| - 1]);
      InvStep(cfg, After(cfg, acts[..|acts| - 1]), acts[|acts| - 1]);
    }
  }

  lemma {:induction false} ReachableAt(cfg: Config, acts: seq<Action>, n: nat)
    requires Legal(cfg, acts) && n <= |acts|
    ensures Inv(cfg, StateAt(cfg, acts, n))
  {
    PrefixLegal(cfg, acts, n);
    Reachable(cfg, acts[..n]);
  }
}
