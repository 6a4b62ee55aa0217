/** activeCalls over whole runs: what is always true of it, and exactly when it misses no call. */
module CallRegistry {
  import opened Options
  import opened CallProtocol
  import opened CallInvariants

  /**
    Soundness, with no assumption on call IDs: an entry always belongs to a call with that ID that is
    between its own insertion and deletion and that no .cancel has found.
   */
  lemma {:induction false} EntriesAreCallsInFlight(cfg: Config, acts: seq<Action>, id: string)
    requires Legal(cfg, acts)
    requires id in After(cfg, acts).active
    ensures var s := After(cfg, acts);
      && s.active[id] < |s.tasks|
      && (var k := s.tasks[s.active[id]];
          && InFlight(k.h) && !k.aborted
          && (match k.frame.call
              case Some(call) => call.id == id && call.callMethod in cfg.methods && call.callMethod != ".cancel"
              case None => false))
  {
    Reachable(cfg, acts);
    assert IsEntry(cfg, After(cfg, acts).tasks[After(cfg, acts).active[id]], id);
  }

  /** No entry outlives the calls: without a call in flight the map is empty. */
  lemma {:induction false} NoStaleEntries(cfg: Config, acts: seq<Action>)
    requires Legal(cfg, acts)
    requires forall t :: 0 <= t < |After(cfg, acts).tasks| ==> !InFlight(After(cfg, acts).tasks[t].h)
    ensures After(cfg, acts).active == map[]
  {
    Reachable(cfg, acts);
    var s := After(cfg, acts);
    assert forall id :: id !in s.active;
  }

  /** A call that .cancel should be able to abort. */
  predicate Abortable(k: Task) {
    InFlight(k.h) && !k.aborted
  }

  /** Every abortable call is under its ID. */
  ghost predicate Exact(s: State) {
    forall t :: 0 <= t < |s.tasks| && Abortable(s.tasks[t]) ==>
      IdOf(s.tasks[t]) in s.active && s.active[IdOf(s.tasks[t])] == t
  }

  /** An insertion over another call's entry, or a deletion of another call's entry. */
  predicate Clobbers(s: State, a: Action)
    requires Enabled(s, a)
  {
    a.Critical? &&
    var k := s.tasks[a.t];
    IdOf(k) in s.active && s.active[IdOf(k)] != a.t && (k.h.doing.Register? || k.h.doing.Deregister?)
  }

  lemma OwnAbortable(cfg: Config, s: State, a: Action)
    requires IsTaskAction(a) && Enabled(s, a) && !a.Critical?
    ensures Abortable(OwnNext(cfg, s, a)) == Abortable(s.tasks[a.t])
    ensures IdOf(OwnNext(cfg, s, a)) == IdOf(s.tasks[a.t])
  {
  }

  lemma ExactOutsideCritical(cfg: Config, s: State, a: Action)
    requires Enabled(s, a) && !a.Critical?
    ensures Exact(s) ==> Exact(Next(cfg, s, a))
  {
    StepTasks(cfg, s, a);
    if IsTaskAction(a) {
      OwnAbortable(cfg, s, a);
    }
  }

  lemma ExactRegister(cfg: Config, s: State, t: nat)
    requires RegistrySound(cfg, s) && Exact(s) && t < |s.tasks| && s.tasks[t].h == InLock(Register)
    ensures Exact(CriticalNext(s, t)) <==> IdOf(s.tasks[t]) !in s.active
  {
    var id, s' := IdOf(s.tasks[t]), CriticalNext(s, t);
    assert s'.tasks == s.tasks[t := s.tasks[t].(h := Leaving(Register))] && s'.active == s.active[id := t];
    if id in s.active {
      var v := s.active[id];
      assert IsEntry(cfg, s.tasks[v], id) && s'.tasks[v] == s.tasks[v];
    }
  }

  lemma ExactDeregister(cfg: Config, s: State, t: nat)
    requires RegistrySound(cfg, s) && Exact(s) && t < |s.tasks| && s.tasks[t].h == InLock(Deregister)
    ensures Exact(CriticalNext(s, t)) <==> !(IdOf(s.tasks[t]) in s.active && s.active[IdOf(s.tasks[t])] != t)
  {
    var id, s' := IdOf(s.tasks[t]), CriticalNext(s, t);
    assert s'.tasks == s.tasks[t := s.tasks[t].(h := Leaving(Deregister))] && s'.active == s.active - {id};
    if id in s.active && s.active[id] != t {
      var v := s.active[id];
      assert IsEntry(cfg, s.tasks[v], id) && s'.tasks[v] == s.tasks[v];
    }
  }

  lemma ExactCancel(cfg: Config, s: State, t: nat)
    requires RegistrySound(cfg, s) && Exact(s) && t < |s.tasks| && s.tasks[t].h == InLock(CancelCall)
    ensures Exact(CriticalNext(s, t))
  {
    if IdOf(s.tasks[t]) in s.active {
      assert IsEntry(cfg, s.tasks[s.active[IdOf(s.tasks[t])]], IdOf(s.tasks[t]));
    }
  }

  /** A call about to insert itself has no entry yet. */
  lemma NotOwnYet(cfg: Config, s: State, t: nat)
    requires RegistrySound(cfg, s) && t < |s.tasks| && s.tasks[t].h == InLock(Register)
    ensures forall id :: id in s.active ==> s.active[id] != t
  {
  }

  /** One step out of an exact state leads to an exact state if and only if it does not clobber. */
  lemma ExactStepIff(cfg: Config, s: State, a: Action)
    requires Inv(cfg, s) && Exact(s) && Enabled(s, a)
    ensures Exact(Next(cfg, s, a)) <==> !Clobbers(s, a)
  {
    if a.Critical? {
      match s.tasks[a.t].h.doing
      case Register => {
        ExactRegister(cfg, s, a.t);
        NotOwnYet(cfg, s, a.t);
      }
      case Deregister => ExactDeregister(cfg, s, a.t);
      case CancelCall => ExactCancel(cfg, s, a.t);
    } else {
      ExactOutsideCritical(cfg, s, a);
    }
  }

  ghost predicate ExactUpTo(cfg: Config, acts: seq<Action>, n: nat)
    requires Legal(cfg, acts) && n <= |acts|
  {
    forall i :: 0 <= i <= n ==> Exact(StateAt(cfg, acts, i))
  }

  predicate ClobbersAt(cfg: Config, acts: seq<Action>, i: nat)
    requires Legal(cfg, acts) && i < |acts|
  {
    StateAtStep(cfg, acts, i);
    Clobbers(StateAt(cfg, acts, i), acts[i])
  }

  /** A run keeps the registry exact throughout if and only if none of its steps clobbers an entry. */
  lemma {:induction false} ExactRunIff(cfg: Config, acts: seq<Action>, n: nat)
    requires Legal(cfg, acts) && n <= |acts|
    ensures ExactUpTo(cfg, acts, n) <==> forall i :: 0 <= i < n ==> !ClobbersAt(cfg, acts, i)
  {
    if n == 0 {
      StateAtEnds(cfg, acts);
    } else {
      ExactRunIff(cfg, acts, n - 1);
      StateAtStep(cfg, acts, n - 1);
      if ExactUpTo(cfg, acts, n - 1) {
        assert Exact(StateAt(cfg, acts, n - 1));
        ReachableAt(cfg, acts, n - 1);
        ExactStepIff(cfg, StateAt(cfg, acts, n - 1), acts[n - 1]);
        assert Exact(StateAt(cfg, acts, n)) <==> !ClobbersAt(cfg, acts, n - 1);
        assert ExactUpTo(cfg, acts, n) <==> Exact(StateAt(cfg, acts, n));
      } else {
        assert !ExactUpTo(cfg, acts, n);
      }
    }
  }

  /** No two calls in flight, on any connection, have the same ID. */
  ghost predicate UniqueInFlight(s: State) {
    forall t, u :: 0 <= t < u < |s.tasks| && InFlight(s.tasks[t].h) && InFlight(s.tasks[u].h) ==>
      IdOf(s.tasks[t]) != IdOf(s.tasks[u])
  }

  lemma UniqueMapOperation(cfg: Config, s: State, t: nat)
    requires RegistrySound(cfg, s) && t < |s.tasks| && s.tasks[t].h.InLock? && !s.tasks[t].h.doing.CancelCall?
    requires UniqueInFlight(s) && UniqueInFlight(CriticalNext(s, t))
    ensures IdOf(s.tasks[t]) in s.active ==> s.active[IdOf(s.tasks[t])] == t
  {
    var k, s' := s.tasks[t], CriticalNext(s, t);
    assert s'.tasks == s.tasks[t := k.(h := Leaving(k.h.doing))];
    assert InFlight(k.h) || InFlight(s'.tasks[t].h);
    if IdOf(k) in s.active {
      var v := s.active[IdOf(k)];
      assert IsEntry(cfg, s.tasks[v], IdOf(k));
      assert InFlight(s.tasks[v].h) && IdOf(s.tasks[v]) == IdOf(k);
      assert forall u :: 0 <= u < |s.tasks| && u != t ==> s'.tasks[u] == s.tasks[u];
    }
  }

  lemma UniqueStepDoesNotClobber(cfg: Config, s: State, a: Action)
    requires Inv(cfg, s) && Enabled(s, a)
    requires UniqueInFlight(s) && UniqueInFlight(Next(cfg, s, a))
    ensures !Clobbers(s, a)
  {
    if a.Critical? && !s.tasks[a.t].h.doing.CancelCall? {
      UniqueMapOperation(cfg, s, a.t);
    }
  }

  /** Call IDs unique from registration to deregistration keep the registry exact, in every run. */
  lemma {:induction false} UniqueIdsKeepExact(cfg: Config, acts: seq<Action>)
    requires Legal(cfg, acts)
    requires forall i :: 0 <= i <= |acts| ==> UniqueInFlight(StateAt(cfg, acts, i))
    ensures ExactUpTo(cfg, acts, |acts|)
  {
    forall i | 0 <= i < |acts|
      ensures !ClobbersAt(cfg, acts, i)
    {
      StateAtStep(cfg, acts, i);
      ReachableAt(cfg, acts, i);
      assert UniqueInFlight(StateAt(cfg, acts, i)) && UniqueInFlight(StateAt(cfg, acts, i + 1));
      UniqueStepDoesNotClobber(cfg, StateAt(cfg, acts, i), acts[i]);
    }
    ExactRunIff(cfg, acts, |acts|);
  }

  /** The frame is a call with this ID. */
  predicate CallsWithId(frame: Frame, id: string) {
    frame.call.Some? && frame.call.value.id == id
  }

  /** In a reachable exact state the map is exactly the abortable calls under their IDs. */
  lemma ExactIsTheMapOfCalls(cfg: Config, s: State, id: string, t: nat)
    requires Inv(cfg, s) && Exact(s)
    ensures (id in s.active && s.active[id] == t) <==>
            (t < |s.tasks| && Abortable(s.tasks[t]) && CallsWithId(s.tasks[t].frame, id))
  {
    if t < |s.tasks| {
      assert TaskOk(cfg, s.tasks[t]);
    }
    if id in s.active {
      assert IsEntry(cfg, s.tasks[s.active[id]], id);
    }
  }

  /** The map operation of a .cancel aborts the one abortable call with its ID, if any, and no other task. */
  lemma CancelAbortsExactlyItsCall(cfg: Config, s: State, t: nat, u: nat, id: string)
    requires Inv(cfg, s) && Exact(s)
    requires t < |s.tasks| && s.tasks[t].h.InLock? && s.tasks[t].frame.call == Some(Call(id, ".cancel"))
    requires u < |s.tasks| && u != t
    ensures var k := s.tasks[u];
      CriticalNext(s, t).tasks[u] ==
        if Abortable(k) && CallsWithId(k.frame, id) then k.(ctx := Cancelled, aborted := true) else k
    ensures CriticalNext(s, t).active == s.active - {id}
    ensures CriticalNext(s, t).tasks[t].h == Sending(OkReply(id), FromCancel)
  {
    assert TaskOk(cfg, s.tasks[t]);
    ExactIsTheMapOfCalls(cfg, s, id, u);
    if id !in s.active {
      assert s.active - {id} == s.active;
    }
  }

  /** In every run whose call IDs are unique while in flight, the map operation of a .cancel aborts the call
      in flight with its ID that was not aborted before, on whatever connection, touches no other task,
      deletes the entry and goes on to reply ok. */
  lemma {:induction false} CancelStepInUniqueRun(cfg: Config, acts: seq<Action>, i: nat, u: nat, id: string)
    requires Legal(cfg, acts) && i < |acts|
    requires forall j :: 0 <= j <= |acts| ==> UniqueInFlight(StateAt(cfg, acts, j))
    requires acts[i].Critical? && u != acts[i].t
    requires var s := StateAt(cfg, acts, i);
      acts[i].t < |s.tasks| && s.tasks[acts[i].t].frame.call == Some(Call(id, ".cancel")) && u < |s.tasks|
    ensures u < |StateAt(cfg, acts, i + 1).tasks|
    ensures var k := StateAt(cfg, acts, i).tasks[u];
      StateAt(cfg, acts, i + 1).tasks[u] ==
        if Abortable(k) && CallsWithId(k.frame, id) then k.(ctx := Cancelled, aborted := true) else k
    ensures var s, s' := StateAt(cfg, acts, i), StateAt(cfg, acts, i + 1);
      && s'.active == s.active - {id}
      && acts[i].t < |s'.tasks| && s'.tasks[acts[i].t].h == Sending(OkReply(id), FromCancel)
  {
    UniqueIdsKeepExact(cfg, acts);
    StateAtStep(cfg, acts, i);
    ReachableAt(cfg, acts, i);
    CancelAbortsExactlyItsCall(cfg, StateAt(cfg, acts, i), acts[i].t, u, id);
  }

  // ---------- Reuse of an ID breaks exactness ----------

  /** What the three steps of reading a frame do to an idle connection. */
  lemma ReadSteps(cfg: Config, s: State, c: nat, frame: Frame)
    requires c < |s.conns| && s.conns[c].loop.Idle?
    ensures var n := s.conns[c]; var k, res := |n.readers|, Data(frame);
      var reading := PutConn(s, c, n.(loop := Selecting(k), readers := n.readers + [Reading]));
      var holding := PutConn(s, c, n.(loop := Selecting(k), readers := n.readers + [Holding(res)]));
      && Next(cfg, s, StartRead(c)) == reading
      && Enabled(reading, ReaderGets(c, k, res)) && Next(cfg, reading, ReaderGets(c, k, res)) == holding
      && Enabled(holding, LoopReceives(c))
      && Next(cfg, holding, LoopReceives(c)) ==
         PutConn(s, c, n.(loop := Got(res), readers := n.readers + [Delivered(res)]))
  {
    var readers, res := s.conns[c].readers, Data(frame);
    assert (readers + [Reading])[|readers| := Holding(res)] == readers + [Holding(res)];
    assert (readers + [Holding(res)])[|readers| := Delivered(res)] == readers + [Delivered(res)];
  }

  /** An idle loop can read a frame. */
  lemma {:induction false} ReadFrame(cfg: Config, acts: seq<Action>, c: nat, frame: Frame)
    returns (acts': seq<Action>)
    requires Legal(cfg, acts) && c < |After(cfg, acts).conns| && After(cfg, acts).conns[c].loop.Idle?
    ensures Legal(cfg, acts')
    ensures var n := After(cfg, acts).conns[c];
      After(cfg, acts') ==
        PutConn(After(cfg, acts), c, n.(loop := Got(Data(frame)), readers := n.readers + [Delivered(Data(frame))]))
  {
    var k := |After(cfg, acts).conns[c].readers|;
    ReadSteps(cfg, After(cfg, acts), c, frame);
    Extend(cfg, acts, StartRead(c));
    var a1 := acts + [StartRead(c)];
    Extend(cfg, a1, ReaderGets(c, k, Data(frame)));
    var a2 := a1 + [ReaderGets(c, k, Data(frame))];
    Extend(cfg, a2, LoopReceives(c));
    acts' := a2 + [LoopReceives(c)];
  }

  /** An idle loop can read a decodable frame and start its task. */
  lemma {:induction false} DispatchFrame(cfg: Config, acts: seq<Action>, c: nat, frame: Frame)
    returns (acts': seq<Action>)
    requires Legal(cfg, acts) && c < |After(cfg, acts).conns| && After(cfg, acts).conns[c].loop.Idle?
    requires TypeOf(cfg, frame).Some?
    ensures Legal(cfg, acts')
    ensures var s, s' := After(cfg, acts), After(cfg, acts');
      && s'.tasks == s.tasks + [NewTask(c, |s.conns[c].dispatched|, frame)]
      && |s'.conns| == |s.conns| && s'.conns[c].loop.Idle?
      && s'.active == s.active && s'.lock == s.lock
  {
    var a1 := ReadFrame(cfg, acts, c, frame);
    Extend(cfg, a1, LoopHandles(c));
    acts' := a1 + [LoopHandles(c)];
  }

  predicate CanStart(cfg: Config, s: State, t: nat) {
    && s.lock.None? && t < |s.tasks| && s.tasks[t].conn < |s.conns|
    && s.tasks[t].h.NotStarted?
    && TypeOf(cfg, s.tasks[t].frame) == Some(CALL_MESSAGE_TYPE)
    && KindOf(cfg, s.tasks[t].frame).PlainKind?
  }

  /** What the first two steps of a fresh call of a registered method do. */
  lemma DecodeSteps(cfg: Config, s: State, t: nat)
    requires CanStart(cfg, s, t)
    ensures var started := Put(s, t, s.tasks[t].(h := Start, w := Recv));
      var ctx := if s.conns[s.tasks[t].conn].cancelled then Cancelled else Live;
      && Enabled(s, LookUpHandler(t)) && Next(cfg, s, LookUpHandler(t)) == started
      && Enabled(started, DecodeCall(t))
      && Next(cfg, started, DecodeCall(t)) ==
         Put(s, t, s.tasks[t].(h := WantLock(Register), w := Recv, ctx := ctx))
  {
    var started := Put(s, t, s.tasks[t].(h := Start, w := Recv));
    var ctx := if s.conns[s.tasks[t].conn].cancelled then Cancelled else Live;
    var decoded := s.tasks[t].(h := WantLock(Register), w := Recv, ctx := ctx);
    assert started.tasks[t := decoded] == s.tasks[t := decoded];
  }

  lemma {:induction false} DecodeFresh(cfg: Config, acts: seq<Action>, t: nat) returns (acts': seq<Action>)
    requires Legal(cfg, acts) && CanStart(cfg, After(cfg, acts), t)
    ensures Legal(cfg, acts')
    ensures exists ctx: CallContext :: var s := After(cfg, acts);
      After(cfg, acts') == Put(s, t, s.tasks[t].(h := WantLock(Register), w := Recv, ctx := ctx))
  {
    DecodeSteps(cfg, After(cfg, acts), t);
    Extend(cfg, acts, LookUpHandler(t));
    var a1 := acts + [LookUpHandler(t)];
    Extend(cfg, a1, DecodeCall(t));
    acts' := a1 + [DecodeCall(t)];
  }

  /** A handler takes activeLock, makes its map operation, and is about to unlock. */
  lemma CriticalSteps(cfg: Config, s: State, t: nat, sec: Section)
    requires s.lock.None? && t < |s.tasks| && s.tasks[t].conn < |s.conns|
    requires s.tasks[t].h == WantLock(sec) && !sec.CancelCall?
    ensures Enabled(s, Lock(t))
    ensures Enabled(Next(cfg, s, Lock(t)), Critical(t))
    ensures Next(cfg, Next(cfg, s, Lock(t)), Critical(t)) ==
      Put(s, t, s.tasks[t].(h := Leaving(sec))).(lock := Some(t), active := MapAfter(s, t, sec))
  {
    var s1 := Next(cfg, s, Lock(t));
    assert s1 == Put(s, t, s.tasks[t].(h := InLock(sec))).(lock := Some(t));
    assert Next(cfg, s1, Critical(t)) == CriticalNext(s1, t);
    assert CriticalNext(s1, t).tasks == s.tasks[t := s.tasks[t].(h := Leaving(sec))];
  }

  function MapAfter(s: State, t: nat, sec: Section): map<string, nat>
    requires t < |s.tasks|
  {
    if sec.Register? then s.active[IdOf(s.tasks[t]) := t] else s.active - {IdOf(s.tasks[t])}
  }

  lemma {:induction false} RunCritical(cfg: Config, acts: seq<Action>, t: nat, sec: Section)
    returns (acts': seq<Action>)
    requires Legal(cfg, acts)
    requires var s := After(cfg, acts);
      && s.lock.None? && t < |s.tasks| && s.tasks[t].conn < |s.conns|
      && s.tasks[t].h == WantLock(sec) && !sec.CancelCall?
    ensures Legal(cfg, acts')
    ensures var s := After(cfg, acts);
      After(cfg, acts') == Put(s, t, s.tasks[t].(h := Leaving(sec))).(lock := Some(t), active := MapAfter(s, t, sec))
  {
    CriticalSteps(cfg, After(cfg, acts), t, sec);
    Extend(cfg, acts, Lock(t));
    var a1 := acts + [Lock(t)];
    Extend(cfg, a1, Critical(t));
    acts' := a1 + [Critical(t)];
  }

  /** A fresh call of a registered method can start running, which puts it under its ID. */
  lemma {:induction false} StartCall(cfg: Config, acts: seq<Action>, t: nat) returns (acts': seq<Action>)
    requires Legal(cfg, acts) && CanStart(cfg, After(cfg, acts), t)
    ensures Legal(cfg, acts')
    ensures exists ctx: CallContext :: var s := After(cfg, acts);
      After(cfg, acts') ==
        Put(s, t, s.tasks[t].(h := Running, w := Recv, ctx := ctx)).(active := s.active[IdOf(s.tasks[t]) := t])
  {
    var s := After(cfg, acts);
    var a1 := DecodeFresh(cfg, acts, t);
    var a2 := RunCritical(cfg, a1, t, Register);
    Extend(cfg, a2, Unlock(t));
    acts' := a2 + [Unlock(t)];
    var k := After(cfg, a1).tasks[t];
    assert After(cfg, acts').tasks == s.tasks[t := k.(h := Running)];
  }

  /** A running call can return and delete the entry under its ID. */
  lemma {:induction false} EndCall(cfg: Config, acts: seq<Action>, t: nat) returns (acts': seq<Action>)
    requires Legal(cfg, acts)
    requires var s := After(cfg, acts);
      s.lock.None? && t < |s.tasks| && s.tasks[t].conn < |s.conns| && s.tasks[t].h.Running?
    ensures Legal(cfg, acts')
    ensures var s := After(cfg, acts);
      && |After(cfg, acts').tasks| == |s.tasks|
      && (forall u :: 0 <= u < |s.tasks| && u != t ==> After(cfg, acts').tasks[u] == s.tasks[u])
      && IdOf(After(cfg, acts').tasks[t]) == IdOf(s.tasks[t])
      && After(cfg, acts').active == s.active - {IdOf(s.tasks[t])}
  {
    Extend(cfg, acts, HandlerReturns(t));
    acts' := RunCritical(cfg, acts + [HandlerReturns(t)], t, Deregister);
  }

  /** Two calls with one ID: when the first returns, its deletion takes the entry of the second, which
      runs on and can no longer be aborted. */
  lemma ReusedIdLosesACall() returns (cfg: Config, acts: seq<Action>)
    ensures Legal(cfg, acts)
    ensures var s := After(cfg, acts);
      && |s.tasks| == 2 && IdOf(s.tasks[0]) == IdOf(s.tasks[1])
      && Abortable(s.tasks[1]) && s.active == map[] && !Exact(s)
  {
    cfg := Config({"m"}, true);
    var frame := Frame(Some(CALL_MESSAGE_TYPE), Some(Call("x", "m")));
    Extend(cfg, [], OpenConn);
    var a0 := [] + [OpenConn];
    var a1 := DispatchFrame(cfg, a0, 0, frame);
    var a2 := DispatchFrame(cfg, a1, 0, frame);
    var a3 := StartCall(cfg, a2, 0);
    var a4 := StartCall(cfg, a3, 1);
    acts := EndCall(cfg, a4, 0);
    assert After(cfg, acts).active == map[];
  }
}
