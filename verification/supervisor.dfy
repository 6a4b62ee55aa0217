/**
  The frpc supervisor: a manager that starts one incarnation of the frp client after another, a watcher
  for each incarnation that cancels it when the local port goes away, and the incarnation's own run that
  cancels when the service ends.  All race on the incarnation's cancellation channel; manager and runner
  also race on `err`, the result variable of Execute, which the runner's goroutine captures.
 */
module Supervisor {
  import opened Options
  import opened Cancellation

  datatype ManagerPc =
    | LoopHead        // reads the kill signal
    | PortKill        // waits for the port: reads the kill signal
    | PortProbe       // waits for the port: probes it
    | Executing       // about to call Execute
    | Storing         // in Execute, its goroutine started: about to store nil in err
    | Returning       // in Execute: about to return what err holds
    | Spawning        // about to start the watcher
    | Waiting         // in WaitForCancellation of the latest incarnation
    | Exited
    | Panicked        // Execute returned an error

  datatype WatcherPc =
    | NotStarted
    | LoopKill        // loop condition: reads the kill signal
    | LoopCancelled   // loop condition: reads the channel
    | LoopPort        // loop condition: probes the port
    | CheckKill       // after the loop: reads the kill signal
    | CheckCancelled  // after the loop: reads the channel
    | WatcherCancels(caller: nat)
    | WatcherGone

  /** The goroutine of Execute: in svr.Run, then about to read err, then in CancelWithReason. */
  datatype RunnerPc = ServiceRuns | ReadsErr | RunnerCancels(caller: nat)

  datatype Incarnation = Incarnation(
    ch: Channel,
    watcher: WatcherPc,
    runner: RunnerPc,
    err: Option<string>)   // the result variable of the call of Execute that started it

  datatype State = State(manager: ManagerPc, killed: bool, incs: seq<Incarnation>)

  const INIT := State(LoopHead, false, [])

  const FRESH_INCARNATION := Incarnation(NewChannel(true), NotStarted, ServiceRuns, None)

  datatype Action =
    | Kill
    | ManagerReadsKill
    | ManagerProbesPort(available: bool)
    | Execute(ok: bool)                            // up to the start of its goroutine, or to an early failure
    | ManagerStoresNil                             // the return statement of Execute sets err
    | ManagerReturns                               // and Execute returns err
    | SpawnWatcher
    | ManagerWakes
    | WatcherReadsKill(i: nat)
    | WatcherReadsChannel(i: nat)
    | WatcherProbesPort(i: nat, available: bool)
    | RunReturns(i: nat, err: Option<string>)      // svr.Run comes back, and its result is stored in err
    | RunnerReadsErr(i: nat)                       // and what err holds is passed to CancelWithReason
    | CallerSteps(i: nat, k: nat)                  // a caller of channel i takes a step

  const PORT_GONE := WithReason(Some("service is unavailable"))

  predicate Enabled(s: State, a: Action) {
    match a
    case Kill => true
    case ManagerReadsKill => s.manager.LoopHead? || s.manager.PortKill?
    case ManagerProbesPort(_) => s.manager.PortProbe?
    case Execute(_) => s.manager.Executing?
    case ManagerStoresNil => s.manager.Storing? && s.incs != []
    case ManagerReturns => s.manager.Returning? && s.incs != []
    case SpawnWatcher => s.manager.Spawning? && s.incs != []
    case ManagerWakes => s.manager.Waiting? && s.incs != [] && Cancelled(s.incs[|s.incs| - 1].ch)
    case _ => a.i < |s.incs| && IncEnabled(s.incs[a.i], a)
  }

  predicate IsIncAction(a: Action) {
    || a.WatcherReadsKill? || a.WatcherReadsChannel? || a.WatcherProbesPort?
    || a.RunReturns? || a.RunnerReadsErr? || a.CallerSteps?
  }

  predicate IncEnabled(inc: Incarnation, a: Action)
    requires IsIncAction(a)
  {
    match a
    case WatcherReadsKill(_) => inc.watcher.LoopKill? || inc.watcher.CheckKill?
    case WatcherReadsChannel(_) => inc.watcher.LoopCancelled? || inc.watcher.CheckCancelled?
    case WatcherProbesPort(_, _) => inc.watcher.LoopPort?
    case RunReturns(_, _) => inc.runner.ServiceRuns?
    case RunnerReadsErr(_) => inc.runner.ReadsErr?
    case CallerSteps(_, k) => Cancellation.Enabled(inc.ch, Advance(k))
  }

  /** The service of an incarnation: Run has not returned and Close has not completed. */
  predicate LiveService(inc: Incarnation) {
    inc.runner.ServiceRuns? && inc.ch.ended == 0
  }

  function Next(s: State, a: Action): State
    requires Enabled(s, a)
  {
    match a
    case Kill => s.(killed := true)
    case ManagerReadsKill =>
      s.(manager := if s.manager.LoopHead? then (if s.killed then Exited else PortKill)
                    else (if s.killed then Executing else PortProbe))
    case ManagerProbesPort(available) => s.(manager := if available then Executing else PortKill)
    case Execute(ok) =>
      if ok then s.(manager := Storing, incs := s.incs + [FRESH_INCARNATION])
      else s.(manager := Panicked)
    case ManagerStoresNil =>
      var i := |s.incs| - 1;
      s.(manager := Returning, incs := s.incs[i := s.incs[i].(err := None)])
    case ManagerReturns => s.(manager := if s.incs[|s.incs| - 1].err.None? then Spawning else Panicked)
    case SpawnWatcher =>
      var i := |s.incs| - 1;
      s.(manager := Waiting, incs := s.incs[i := s.incs[i].(watcher := LoopKill)])
    case ManagerWakes => s.(manager := LoopHead)
    case _ => s.(incs := s.incs[a.i := IncNext(s.incs[a.i], s.killed, a)])
  }

  /** A step of the goroutines of one incarnation; killed is what a read of the kill signal returns. */
  function IncNext(inc: Incarnation, killed: bool, a: Action): Incarnation
    requires IsIncAction(a) && IncEnabled(inc, a)
  {
    match a
    case WatcherReadsKill(_) =>
      if inc.watcher.LoopKill? then inc.(watcher := if killed then CheckKill else LoopCancelled)
      else inc.(watcher := if killed then WatcherGone else CheckCancelled)
    case WatcherReadsChannel(_) =>
      if inc.watcher.LoopCancelled? then inc.(watcher := if Cancelled(inc.ch) then CheckKill else LoopPort)
      else if Cancelled(inc.ch) then inc.(watcher := WatcherGone)
      else inc.(watcher := WatcherCancels(|inc.ch.callers|), ch := Cancellation.Next(inc.ch, Arrive(PORT_GONE)))
    case WatcherProbesPort(_, available) => inc.(watcher := if available then LoopKill else CheckKill)
    case RunReturns(_, err) => inc.(runner := ReadsErr, err := err)
    case RunnerReadsErr(_) =>
      inc.(runner := RunnerCancels(|inc.ch.callers|), ch := Cancellation.Next(inc.ch, Arrive(WithReason(inc.err))))
    case CallerSteps(_, k) => inc.(ch := Cancellation.Next(inc.ch, Advance(k)))
  }

  // ---------- Invariant ----------

  /** A channel has at most two callers, its own runner and its own watcher. */
  ghost predicate IncOk(inc: Incarnation) {
    && inc.ch.hasCallback && Cancellation.Inv(inc.ch) && (Cancelled(inc.ch) ==> inc.ch.callers != [])
    && |inc.ch.callers| == (if inc.watcher.WatcherCancels? then 1 else 0) + (if inc.runner.RunnerCancels? then 1 else 0)
    && (inc.watcher.WatcherCancels? ==>
          inc.watcher.caller < |inc.ch.callers| && inc.ch.callers[inc.watcher.caller].call == PORT_GONE)
    && (inc.runner.RunnerCancels? ==>
          inc.runner.caller < |inc.ch.callers| && inc.ch.callers[inc.runner.caller].call.WithReason?)
    && (inc.watcher.WatcherCancels? && inc.runner.RunnerCancels? ==> inc.watcher.caller != inc.runner.caller)
    && (inc.runner.ServiceRuns? ==> inc.err.None?)
  }

  ghost predicate AllOk(incs: seq<Incarnation>) {
    forall i :: 0 <= i < |incs| ==> IncOk(incs[i])
  }

  /** From the start of an incarnation to the close of its channel the manager is busy with it. */
  predicate Awaiting(manager: ManagerPc) {
    manager.Storing? || manager.Returning? || manager.Spawning? || manager.Waiting?
  }

  /** Where the manager is decides which channels are closed and which watcher has not started. */
  ghost predicate PhaseOk(manager: ManagerPc, incs: seq<Incarnation>) {
    && (forall i :: 0 <= i < |incs| - 1 ==> Cancelled(incs[i].ch))
    && (if Awaiting(manager) then incs != []
        else incs != [] && !manager.Panicked? ==> Cancelled(incs[|incs| - 1].ch))
    && (forall i :: 0 <= i < |incs| && incs[i].watcher.NotStarted? ==>
          i == |incs| - 1 && !manager.Waiting? && (Awaiting(manager) || manager.Panicked?))
    && (Awaiting(manager) && !manager.Waiting? ==> incs[|incs| - 1].watcher.NotStarted?)
  }

  ghost predicate Inv(s: State) {
    AllOk(s.incs) && PhaseOk(s.manager, s.incs)
  }

  lemma WatcherArrives(inc: Incarnation)
    requires IncOk(inc) && !inc.watcher.WatcherCancels?
    ensures IncOk(inc.(
      watcher := WatcherCancels(|inc.ch.callers|), ch := Cancellation.Next(inc.ch, Arrive(PORT_GONE))))
  {
    Cancellation.InvStep(inc.ch, Arrive(PORT_GONE));
  }

  lemma RunnerArrives(inc: Incarnation)
    requires IncOk(inc) && inc.runner.ReadsErr?
    ensures IncOk(inc.(
      runner := RunnerCancels(|inc.ch.callers|), ch := Cancellation.Next(inc.ch, Arrive(WithReason(inc.err)))))
  {
    Cancellation.InvStep(inc.ch, Arrive(WithReason(inc.err)));
  }

  lemma CallerAdvances(inc: Incarnation, k: nat)
    requires IncOk(inc) && Cancellation.Enabled(inc.ch, Advance(k))
    ensures IncOk(inc.(ch := Cancellation.Next(inc.ch, Advance(k))))
    ensures Cancelled(inc.ch) ==> Cancelled(Cancellation.Next(inc.ch, Advance(k)))
  {
    Cancellation.InvStep(inc.ch, Advance(k));
  }

  lemma IncStep(inc: Incarnation, killed: bool, a: Action)
    requires IncOk(inc) && IsIncAction(a) && IncEnabled(inc, a)
    ensures IncOk(IncNext(inc, killed, a))
    ensures Cancelled(inc.ch) ==> Cancelled(IncNext(inc, killed, a).ch)
    ensures IncNext(inc, killed, a).watcher.NotStarted? == inc.watcher.NotStarted?
  {
    match a
    case CallerSteps(_, k) => CallerAdvances(inc, k);
    case RunnerReadsErr(_) => RunnerArrives(inc);
    case WatcherReadsChannel(_) => WatcherArrives(inc);
    case _ =>
  }

  lemma AllOkUpdate(incs: seq<Incarnation>, i: nat, inc: Incarnation)
    requires AllOk(incs) && i < |incs| && IncOk(inc)
    ensures AllOk(incs[i := inc])
  {
    var incs' := incs[i := inc];
    forall j | 0 <= j < |incs'|
      ensures IncOk(incs'[j])
    {
      assert incs'[j] == if j == i then inc else incs[j];
    }
  }

  lemma StartKeepsInv(s: State)
    requires Inv(s) && s.manager.Executing?
    ensures Inv(s.(manager := Storing, incs := s.incs + [FRESH_INCARNATION]))
  {
    assert IncOk(FRESH_INCARNATION);
  }

  lemma SpawnKeepsInv(s: State)
    requires Inv(s) && s.manager.Spawning?
    ensures var i := |s.incs| - 1; Inv(s.(manager := Waiting, incs := s.incs[i := s.incs[i].(watcher := LoopKill)]))
  {
    var i := |s.incs| - 1;
    assert IncOk(s.incs[i]);
    AllOkUpdate(s.incs, i, s.incs[i].(watcher := LoopKill));
  }

  lemma StoreKeepsInv(s: State)
    requires Inv(s) && s.manager.Storing?
    ensures var i := |s.incs| - 1; Inv(s.(manager := Returning, incs := s.incs[i := s.incs[i].(err := None)]))
  {
    var i := |s.incs| - 1;
    assert IncOk(s.incs[i]);
    AllOkUpdate(s.incs, i, s.incs[i].(err := None));
  }

  lemma InvManagerStep(s: State, a: Action)
    requires Inv(s) && Enabled(s, a) && !IsIncAction(a)
    ensures Inv(Next(s, a))
  {
    match a
    case Execute(ok) =>
      if ok {
        StartKeepsInv(s);
      }
    case ManagerStoresNil => StoreKeepsInv(s);
    case SpawnWatcher => SpawnKeepsInv(s);
    case _ =>
  }

  lemma InvIncStep(s: State, a: Action)
    requires Inv(s) && Enabled(s, a) && IsIncAction(a)
    ensures Inv(Next(s, a))
  {
    var inc := IncNext(s.incs[a.i], s.killed, a);
    assert IncOk(s.incs[a.i]);
    IncStep(s.incs[a.i], s.killed, a);
    AllOkUpdate(s.incs, a.i, inc);
    PhaseUpdate(s.manager, s.incs, a.i, inc);
  }

  lemma PhaseUpdate(manager: ManagerPc, incs: seq<Incarnation>, i: nat, inc: Incarnation)
    requires PhaseOk(manager, incs) && i < |incs|
    requires Cancelled(incs[i].ch) ==> Cancelled(inc.ch)
    requires inc.watcher.NotStarted? == incs[i].watcher.NotStarted?
    ensures PhaseOk(manager, incs[i := inc])
  {
  }

  lemma InvStep(s: State, a: Action)
    requires Inv(s) && Enabled(s, a)
    ensures Inv(Next(s, a))
  {
    if IsIncAction(a) {
      InvIncStep(s, a);
    } else {
      InvManagerStep(s, a);
    }
  }

  // ---------- Runs ----------

  predicate Legal(s: State, acts: seq<Action>)
    decreases |acts|
  {
    acts == [] || (Enabled(s, acts[0]) && Legal(Next(s, acts[0]), acts[1..]))
  }

  function After(s: State, acts: seq<Action>): State
    requires Legal(s, acts)
    decreases |acts|
  {
    if acts == [] then s else After(Next(s, acts[0]), acts[1..])
  }

  /** The state after the first n actions of a run. */
  function StateAt(s: State, acts: seq<Action>, n: nat): State
    requires Legal(s, acts) && n <= |acts|
    decreases n
  {
    if n == 0 then s else StateAt(Next(s, acts[0]), acts[1..], n - 1)
  }

  lemma {:induction false} Append(s: State, acts: seq<Action>, a: Action)
    requires Legal(s, acts) && Enabled(After(s, acts), a)
    ensures Legal(s, acts + [a]) && After(s, acts + [a]) == Next(After(s, acts), a)
    decreases |acts|
  {
    if acts != [] {
      Append(Next(s, acts[0]), acts[1..], a);
      assert (acts + [a])[1..] == acts[1..] + [a];
    }
  }

  /** Every action of a run is possible after those before it. */
  lemma {:induction false} PrefixStep(s: State, acts: seq<Action>, i: nat)
    requires Legal(s, acts) && i < |acts|
    ensures Legal(s, acts[..i]) && Enabled(After(s, acts[..i]), acts[i])
    decreases i
  {
    if i > 0 {
      PrefixStep(Next(s, acts[0]), acts[1..], i - 1);
      assert acts[..i][1..] == acts[1..][..i - 1];
    }
  }

  lemma {:induction false} RunKeepsInv(s: State, acts: seq<Action>)
    requires Inv(s) && Legal(s, acts)
    ensures Inv(After(s, acts))
    decreases |acts|
  {
    if acts != [] {
      InvStep(s, acts[0]);
      RunKeepsInv(Next(s, acts[0]), acts[1..]);
    }
  }

  /** In every run at most one incarnation, the latest, has an open channel, while the manager is busy with
      it or has panicked; and no service's Close is called more than once, nor before its channel is closed. */
  lemma {:induction false} OneOpenIncarnation(acts: seq<Action>, i: nat)
    requires Legal(INIT, acts) && i < |After(INIT, acts).incs|
    ensures var s := After(INIT, acts);
      && (!Cancelled(s.incs[i].ch) ==> i == |s.incs| - 1 && (Awaiting(s.manager) || s.manager.Panicked?))
      && s.incs[i].ch.closes <= 1
      && s.incs[i].ch.started <= s.incs[i].ch.closes
  {
    RunKeepsInv(INIT, acts);
    assert IncOk(After(INIT, acts).incs[i]);
  }

  /** An incarnation starts only when the channels of all before it are closed. */
  lemma {:induction false} StartsAfterCancellation(acts: seq<Action>, ok: bool, i: nat)
    requires Legal(INIT, acts) && Enabled(After(INIT, acts), Execute(ok))
    requires i < |After(INIT, acts).incs|
    ensures Cancelled(After(INIT, acts).incs[i].ch)
  {
    RunKeepsInv(INIT, acts);
  }

  /** Caller k of the incarnation's channel is its own watcher or its own runner. */
  predicate OwnCaller(inc: Incarnation, k: nat) {
    inc.watcher == WatcherCancels(k) || inc.runner == RunnerCancels(k)
  }

  /** Whoever closes the channel of incarnation i is its own runner or its own watcher, and nothing but the
      close and the progress of that one caller comes with the step. */
  lemma {:induction false} OnlyOwnGoroutinesCancel(acts: seq<Action>, a: Action, i: nat)
    requires Legal(INIT, acts) && Enabled(After(INIT, acts), a) && i < |After(INIT, acts).incs|
    requires !Cancelled(After(INIT, acts).incs[i].ch) && Cancelled(Next(After(INIT, acts), a).incs[i].ch)
    ensures a.CallerSteps? && a.i == i
    ensures OwnCaller(After(INIT, acts).incs[i], a.k)
    ensures var s := After(INIT, acts); var inc := s.incs[i]; var callers := Next(s, a).incs[i].ch.callers;
      && |callers| == |inc.ch.callers| && a.k < |callers|
      && (forall m :: 0 <= m < |callers| && m != a.k ==> callers[m] == inc.ch.callers[m])
      && Next(s, a) == s.(incs := s.incs[i := inc.(ch := inc.ch.(closes := inc.ch.closes + 1, callers := callers))])
  {
    RunKeepsInv(INIT, acts);
    CloseIsOwn(After(INIT, acts), a, i);
  }

  lemma CloseIsOwn(s: State, a: Action, i: nat)
    requires AllOk(s.incs) && Enabled(s, a) && i < |s.incs|
    requires !Cancelled(s.incs[i].ch) && Cancelled(Next(s, a).incs[i].ch)
    ensures a.CallerSteps? && a.i == i && OwnCaller(s.incs[i], a.k)
    ensures s.incs[i].ch.callers[a.k].pc.Closing?
    ensures Next(s, a) == s.(incs := s.incs[i := s.incs[i].(ch := Cancellation.Next(s.incs[i].ch, Advance(a.k)))])
  {
    assert IncOk(s.incs[i]);
  }

  // ---------- The reason of an incarnation ----------

  /** What an action does on the channel of incarnation i. */
  function ChannelStep(s: State, a: Action, i: nat): seq<Step>
    requires Enabled(s, a)
  {
    if !IsIncAction(a) || a.i != i then []
    else match a
      case WatcherReadsChannel(_) =>
        if s.incs[i].watcher.CheckCancelled? && !Cancelled(s.incs[i].ch) then [Arrive(PORT_GONE)] else []
      case RunnerReadsErr(_) => [Arrive(WithReason(s.incs[i].err))]
      case CallerSteps(_, k) => [Advance(k)]
      case _ => []
  }

  function ChannelSteps(s: State, acts: seq<Action>, i: nat): seq<Step>
    requires Legal(s, acts)
    decreases |acts|
  {
    if acts == [] then [] else ChannelStep(s, acts[0], i) + ChannelSteps(Next(s, acts[0]), acts[1..], i)
  }

  /** The channel of incarnation i, before its start the one it will start with. */
  function ChannelOf(s: State, i: nat): Channel {
    if i < |s.incs| then s.incs[i].ch else NewChannel(true)
  }

  lemma OneChannelStep(s: State, a: Action, i: nat)
    requires Enabled(s, a)
    ensures var e, ch, ch' := ChannelStep(s, a, i), ChannelOf(s, i), ChannelOf(Next(s, a), i);
      || (e == [] && ch' == ch)
      || (|e| == 1 && Cancellation.Enabled(ch, e[0]) && Cancellation.Next(ch, e[0]) == ch')
  {
  }

  lemma Prepend(ch: Channel, e: seq<Step>, ch': Channel, rest: seq<Step>)
    requires
      || (e == [] && ch' == ch)
      || (|e| == 1 && Cancellation.Enabled(ch, e[0]) && Cancellation.Next(ch, e[0]) == ch')
    requires Cancellation.Legal(ch', rest)
    ensures Cancellation.Legal(ch, e + rest)
    ensures Cancellation.After(ch, e + rest) == Cancellation.After(ch', rest)
  {
    if e == [] {
      assert e + rest == rest;
    } else {
      assert (e + rest)[0] == e[0] && (e + rest)[1..] == rest;
    }
  }

  /** On each incarnation's channel a run of the supervisor is a run of the cancellation channel. */
  lemma {:induction false} ChannelRun(s: State, acts: seq<Action>, i: nat)
    requires Legal(s, acts)
    ensures Cancellation.Legal(ChannelOf(s, i), ChannelSteps(s, acts, i))
    ensures Cancellation.After(ChannelOf(s, i), ChannelSteps(s, acts, i)) == ChannelOf(After(s, acts), i)
    decreases |acts|
  {
    if acts != [] {
      var e := ChannelStep(s, acts[0], i);
      var rest := ChannelSteps(Next(s, acts[0]), acts[1..], i);
      OneChannelStep(s, acts[0], i);
      ChannelRun(Next(s, acts[0]), acts[1..], i);
      Prepend(ChannelOf(s, i), e, ChannelOf(Next(s, acts[0]), i), rest);
    }
  }

  /** The return statement of Execute sets err to nil after svr.Run has stored its result there, and before
      the runner reads it. */
  predicate Overwrites(s: State, a: Action, i: nat) {
    a.ManagerStoresNil? && |s.incs| == i + 1 && s.incs[i].runner.ReadsErr?
  }

  predicate Overwritten(s: State, acts: seq<Action>, i: nat)
    requires Legal(s, acts)
    decreases |acts|
  {
    acts != [] && (Overwrites(s, acts[0], i) || Overwritten(Next(s, acts[0]), acts[1..], i))
  }

  /** The runner of incarnation i will give an error as the reason, or has. */
  predicate RunnerGives(s: State, i: nat, err: Option<string>) {
    i < |s.incs| &&
    match s.incs[i].runner
    case ServiceRuns => false
    case ReadsErr => s.incs[i].err == err
    case RunnerCancels(k) => k < |s.incs[i].ch.callers| && s.incs[i].ch.callers[k].call == WithReason(err)
  }

  lemma RunnerGivesStep(s: State, a: Action, i: nat, err: Option<string>)
    requires RunnerGives(s, i, err) && Enabled(s, a)
    ensures RunnerGives(Next(s, a), i, if Overwrites(s, a, i) then None else err)
  {
  }

  lemma {:induction false} RunnerGivesOn(s: State, acts: seq<Action>, i: nat, err: Option<string>)
    requires RunnerGives(s, i, err) && Legal(s, acts)
    ensures RunnerGives(After(s, acts), i, if Overwritten(s, acts, i) then None else err)
    decreases |acts|
  {
    if acts != [] {
      RunnerGivesStep(s, acts[0], i, err);
      RunnerGivesOn(Next(s, acts[0]), acts[1..], i, if Overwrites(s, acts[0], i) then None else err);
    }
  }

  /** What a runner gives: the error its svr.Run came back with, unless Execute's return overwrote it. */
  lemma {:induction false} RunnersError(s: State, acts: seq<Action>, i: nat)
    requires Legal(s, acts) && i < |After(s, acts).incs| && !After(s, acts).incs[i].runner.ServiceRuns?
    requires i < |s.incs| ==> s.incs[i].runner.ServiceRuns?
    ensures exists err ::
      RunReturns(i, err) in acts && RunnerGives(After(s, acts), i, if Overwritten(s, acts, i) then None else err)
    decreases |acts|
  {
    var s' := Next(s, acts[0]);
    if acts[0].RunReturns? && acts[0].i == i {
      RunnerGivesOn(s', acts[1..], i, acts[0].err);
    } else {
      RunnersError(s', acts[1..], i);
    }
  }

  /** A manager at its loop head that finds the port available gets as far as the start of the service. */
  lemma {:induction false} StartExecute(acts: seq<Action>) returns (acts': seq<Action>)
    requires Legal(INIT, acts) && After(INIT, acts).manager.LoopHead? && !After(INIT, acts).killed
    ensures Legal(INIT, acts') && (Execute(false) !in acts ==> Execute(false) !in acts')
    ensures After(INIT, acts') == State(Storing, false, After(INIT, acts).incs + [FRESH_INCARNATION])
  {
    var s := After(INIT, acts);
    Append(INIT, acts, ManagerReadsKill);
    var a1 := acts + [ManagerReadsKill];
    Append(INIT, a1, ManagerReadsKill);
    var a2 := a1 + [ManagerReadsKill];
    Append(INIT, a2, ManagerProbesPort(true));
    var a3 := a2 + [ManagerProbesPort(true)];
    assert After(INIT, a3) == s.(manager := Executing);
    Append(INIT, a3, Execute(true));
    acts' := a3 + [Execute(true)];
  }

  /** A service that failed while Execute was about to return can give nil as the reason. */
  lemma RunErrorCanBeLost(e: string) returns (acts: seq<Action>)
    ensures Legal(INIT, acts) && RunReturns(0, Some(e)) in acts
    ensures RunnerGives(After(INIT, acts), 0, None) && After(INIT, acts).manager.Spawning?
  {
    var a0 := StartExecute([]);
    var failed := FRESH_INCARNATION.(runner := ReadsErr, err := Some(e));
    Append(INIT, a0, RunReturns(0, Some(e)));
    var a1 := a0 + [RunReturns(0, Some(e))];
    assert After(INIT, a1) == State(Storing, false, [failed]);
    Append(INIT, a1, ManagerStoresNil);
    var a2 := a1 + [ManagerStoresNil];
    assert After(INIT, a2) == State(Returning, false, [failed.(err := None)]);
    Append(INIT, a2, ManagerReturns);
    acts := a2 + [ManagerReturns];
  }

  lemma CallersAreOwn(inc: Incarnation, k: nat)
    requires IncOk(inc) && k < |inc.ch.callers|
    ensures OwnCaller(inc, k)
    ensures inc.watcher == WatcherCancels(k) ==> inc.ch.callers[k].call == PORT_GONE
  {
  }

  /**
    In every run the Reason of an incarnation is unset until its runner or its watcher wrote it; it is
    that of the missing port if the watcher wrote last; if the runner did, it is the error its svr.Run came
    back with, unless the return statement of Execute set err to nil in between, and then it is nil.
   */
  lemma {:induction false} ReasonOfIncarnation(acts: seq<Action>, i: nat)
    requires Legal(INIT, acts) && i < |After(INIT, acts).incs|
    ensures Cancellation.Legal(NewChannel(true), ChannelSteps(INIT, acts, i))
    ensures var inc := After(INIT, acts).incs[i];
      match LastWriter(NewChannel(true), ChannelSteps(INIT, acts, i))
      case None => inc.ch.reason.None?
      case Some(k) =>
        || (inc.watcher == WatcherCancels(k) && inc.ch.reason == Some("service is unavailable"))
        || (inc.runner == RunnerCancels(k) && exists err ::
              RunReturns(i, err) in acts && inc.ch.reason == if Overwritten(INIT, acts, i) then None else err)
  {
    RunKeepsInv(INIT, acts);
    ChannelRun(INIT, acts, i);
    ReasonIsLastWriters(NewChannel(true), ChannelSteps(INIT, acts, i));
    var inc := After(INIT, acts).incs[i];
    match LastWriter(NewChannel(true), ChannelSteps(INIT, acts, i))
    case None =>
    case Some(k) =>
      CallersAreOwn(inc, k);
      if inc.runner == RunnerCancels(k) {
        RunnersError(INIT, acts, i);
      }
  }

  /**
    After the close the Reason of an incarnation is what its closer gave if and only if the closer wrote
    last, or the other caller did and gave the same, or nobody wrote and the closer's error is nil.
   */
  lemma {:induction false} IncarnationReasonIsClosersIff(acts: seq<Action>, i: nat)
    requires Legal(INIT, acts) && i < |After(INIT, acts).incs| && Cancelled(After(INIT, acts).incs[i].ch)
    ensures Cancellation.Legal(NewChannel(true), ChannelSteps(INIT, acts, i))
    ensures var inc := After(INIT, acts).incs[i];
      var es := ChannelSteps(INIT, acts, i);
      var closer, last := Closer(NewChannel(true), es), LastWriter(NewChannel(true), es);
      && closer.Some? && closer.value < |inc.ch.callers| && OwnCaller(inc, closer.value)
      && (last.Some? ==> last.value < |inc.ch.callers| && OwnCaller(inc, last.value))
      && (inc.ch.reason == Given(inc.ch.callers[closer.value].call) <==>
            if last.None? then Given(inc.ch.callers[closer.value].call).None?
            else last == closer || inc.ch.callers[last.value].call == inc.ch.callers[closer.value].call)
  {
    RunKeepsInv(INIT, acts);
    ChannelRun(INIT, acts, i);
    var es := ChannelSteps(INIT, acts, i);
    ReasonIsClosersIff(true, es);
    CallersAreOwn(After(INIT, acts).incs[i], Closer(NewChannel(true), es).value);
    if LastWriter(NewChannel(true), es).Some? {
      CallersAreOwn(After(INIT, acts).incs[i], LastWriter(NewChannel(true), es).value);
    }
  }

  // ---------- After the kill signal ----------

  /** Incarnations the manager may still start once it has been killed. */
  function StartsLeft(manager: ManagerPc): nat {
    if manager.PortKill? || manager.PortProbe? || manager.Executing? then 1 else 0
  }

  /** From any state with the kill signal set, every run starts at most one more incarnation, and none
      unless the manager had already passed its loop test. */
  lemma {:induction false} BoundedWorkAfterKill(s: State, acts: seq<Action>)
    requires Legal(s, acts) && s.killed
    ensures After(s, acts).killed
    ensures |s.incs| <= |After(s, acts).incs|
    ensures |After(s, acts).incs| + StartsLeft(After(s, acts).manager) <= |s.incs| + StartsLeft(s.manager)
    decreases |acts|
  {
    if acts != [] {
      BoundedWorkAfterKill(Next(s, acts[0]), acts[1..]);
    }
  }

  /** The bound is met: a killed manager in its port wait, or past it, can still start one incarnation,
      however often the port is found closed. */
  lemma KilledManagerCanStartOne(s: State) returns (acts: seq<Action>)
    requires s.killed && StartsLeft(s.manager) == 1
    ensures Legal(s, acts) && |After(s, acts).incs| == |s.incs| + 1
    ensures forall n :: 0 <= n < |acts| && acts[n].ManagerProbesPort? ==> !acts[n].available
    decreases if s.manager.PortProbe? then 2 else if s.manager.PortKill? then 1 else 0
  {
    if s.manager.Executing? {
      acts := [Execute(true)];
      assert acts[1..] == [];
    } else {
      var a := if s.manager.PortKill? then ManagerReadsKill else ManagerProbesPort(false);
      var rest := KilledManagerCanStartOne(Next(s, a));
      acts := [a] + rest;
      assert acts[1..] == rest;
    }
  }

  // ---------- How many services are live ----------

  ghost predicate AtMostOneLive(s: State) {
    forall i, j :: 0 <= i < j < |s.incs| ==> !(LiveService(s.incs[i]) && LiveService(s.incs[j]))
  }

  /** The action starts an incarnation while the service of the latest one is live. */
  predicate StartsOverLive(s: State, a: Action) {
    a == Execute(true) && s.incs != [] && LiveService(s.incs[|s.incs| - 1])
  }

  ghost predicate OlderDead(s: State) {
    forall i :: 0 <= i < |s.incs| - 1 ==> !LiveService(s.incs[i])
  }

  lemma OlderDeadStep(s: State, a: Action)
    requires OlderDead(s) && Enabled(s, a)
    ensures !StartsOverLive(s, a) ==> OlderDead(Next(s, a))
    ensures StartsOverLive(s, a) ==> !AtMostOneLive(Next(s, a))
  {
    var s' := Next(s, a);
    if StartsOverLive(s, a) {
      var n := |s.incs|;
      assert s'.incs[n - 1] == s.incs[n - 1] && LiveService(s'.incs[n - 1]) && LiveService(s'.incs[n]);
    } else if a != Execute(true) {
      forall i | 0 <= i < |s'.incs|
        ensures |s'.incs| == |s.incs| && (LiveService(s'.incs[i]) ==> LiveService(s.incs[i]))
      {
      }
    }
  }

  ghost predicate OneLiveThroughout(s: State, acts: seq<Action>)
    requires Legal(s, acts)
  {
    forall n :: 0 <= n <= |acts| ==> AtMostOneLive(StateAt(s, acts, n))
  }

  ghost predicate NoStartOverLive(s: State, acts: seq<Action>)
    requires Legal(s, acts)
  {
    forall n :: 0 <= n < |acts| ==> !StartsOverLive(StateAt(s, acts, n), acts[n])
  }

  lemma {:induction false} OneLiveFirstThenRest(s: State, acts: seq<Action>)
    requires Legal(s, acts) && acts != []
    ensures OneLiveThroughout(s, acts) <==> AtMostOneLive(s) && OneLiveThroughout(Next(s, acts[0]), acts[1..])
  {
    var s', rest := Next(s, acts[0]), acts[1..];
    assert StateAt(s, acts, 0) == s;
    assert forall n :: 0 < n <= |acts| ==> StateAt(s, acts, n) == StateAt(s', rest, n - 1);
    forall n | 0 <= n <= |rest|
      ensures StateAt(s', rest, n) == StateAt(s, acts, n + 1)
    {
    }
  }

  lemma {:induction false} StartsFirstThenRest(s: State, acts: seq<Action>)
    requires Legal(s, acts) && acts != []
    ensures NoStartOverLive(s, acts) <==> !StartsOverLive(s, acts[0]) && NoStartOverLive(Next(s, acts[0]), acts[1..])
  {
    var s', rest := Next(s, acts[0]), acts[1..];
    assert StateAt(s, acts, 0) == s;
    assert forall n :: 0 < n < |acts| ==> StateAt(s, acts, n) == StateAt(s', rest, n - 1) && acts[n] == rest[n - 1];
    forall n | 0 <= n < |rest|
      ensures StateAt(s', rest, n) == StateAt(s, acts, n + 1) && rest[n] == acts[n + 1]
    {
    }
  }

  lemma {:induction false} OneLiveFromIff(s: State, acts: seq<Action>)
    requires OlderDead(s) && Legal(s, acts)
    ensures OneLiveThroughout(s, acts) <==> NoStartOverLive(s, acts)
    decreases |acts|
  {
    if acts != [] {
      OlderDeadStep(s, acts[0]);
      OneLiveFirstThenRest(s, acts);
      StartsFirstThenRest(s, acts);
      if StartsOverLive(s, acts[0]) {
        assert StateAt(Next(s, acts[0]), acts[1..], 0) == Next(s, acts[0]);
      } else {
        OneLiveFromIff(Next(s, acts[0]), acts[1..]);
      }
    }
  }

  /**
    At most one service is live throughout a run if and only if no start of the run finds the service of
    the latest incarnation live, that is neither come back from Run nor closed.
   */
  lemma {:induction false} OneLiveThroughoutIff(acts: seq<Action>)
    requires Legal(INIT, acts)
    ensures OneLiveThroughout(INIT, acts) <==> NoStartOverLive(INIT, acts)
  {
    OneLiveFromIff(INIT, acts);
  }

  /** A manager at its loop head that finds the port available starts one more incarnation and watches it. */
  lemma {:induction false} StartOne(acts: seq<Action>) returns (acts': seq<Action>)
    requires Legal(INIT, acts) && After(INIT, acts).manager.LoopHead? && !After(INIT, acts).killed
    ensures Legal(INIT, acts')
    ensures After(INIT, acts') ==
      State(Waiting, false, After(INIT, acts).incs + [FRESH_INCARNATION.(watcher := LoopKill)])
  {
    var incs := After(INIT, acts).incs;
    var a1 := StartExecute(acts);
    Append(INIT, a1, ManagerStoresNil);
    var a2 := a1 + [ManagerStoresNil];
    assert (incs + [FRESH_INCARNATION])[|incs| := FRESH_INCARNATION] == incs + [FRESH_INCARNATION];
    assert After(INIT, a2) == State(Returning, false, incs + [FRESH_INCARNATION]);
    Append(INIT, a2, ManagerReturns);
    var a3 := a2 + [ManagerReturns];
    assert After(INIT, a3) == State(Spawning, false, incs + [FRESH_INCARNATION]);
    Append(INIT, a3, SpawnWatcher);
    acts' := a3 + [SpawnWatcher];
    var watched := FRESH_INCARNATION.(watcher := LoopKill);
    assert (incs + [FRESH_INCARNATION])[|incs| := watched] == incs + [watched];
  }

  /** The watcher of a sole incarnation that finds the port gone becomes a canceller. */
  lemma {:induction false} WatcherGivesUp(acts: seq<Action>) returns (acts': seq<Action>)
    requires Legal(INIT, acts) && After(INIT, acts) == State(Waiting, false, [FRESH_INCARNATION.(watcher := LoopKill)])
    ensures Legal(INIT, acts')
    ensures After(INIT, acts') ==
      var ch := Cancellation.Next(NewChannel(true), Arrive(PORT_GONE));
      State(Waiting, false, [FRESH_INCARNATION.(watcher := WatcherCancels(0), ch := ch)])
  {
    Append(INIT, acts, WatcherReadsKill(0));
    var a1 := acts + [WatcherReadsKill(0)];
    assert After(INIT, a1) == State(Waiting, false, [FRESH_INCARNATION.(watcher := LoopCancelled)]);
    Append(INIT, a1, WatcherReadsChannel(0));
    var a2 := a1 + [WatcherReadsChannel(0)];
    assert After(INIT, a2) == State(Waiting, false, [FRESH_INCARNATION.(watcher := LoopPort)]);
    Append(INIT, a2, WatcherProbesPort(0, false));
    var a3 := a2 + [WatcherProbesPort(0, false)];
    assert After(INIT, a3) == State(Waiting, false, [FRESH_INCARNATION.(watcher := CheckKill)]);
    Append(INIT, a3, WatcherReadsKill(0));
    var a4 := a3 + [WatcherReadsKill(0)];
    assert After(INIT, a4) == State(Waiting, false, [FRESH_INCARNATION.(watcher := CheckCancelled)]);
    Append(INIT, a4, WatcherReadsChannel(0));
    acts' := a4 + [WatcherReadsChannel(0)];
  }

  /** The channel closes before svr.Close is called, so a second service can start while the first lives. */
  lemma TwoServicesCanBeLive() returns (acts: seq<Action>)
    ensures Legal(INIT, acts)
    ensures var s := After(INIT, acts); |s.incs| == 2 && LiveService(s.incs[0]) && LiveService(s.incs[1])
  {
    var a0 := StartOne([]);
    assert After(INIT, a0) == State(Waiting, false, [FRESH_INCARNATION.(watcher := LoopKill)]);
    var a1 := WatcherGivesUp(a0);
    var arrived := Cancellation.Next(NewChannel(true), Arrive(PORT_GONE));
    var closing := Channel(true, Busy(0), 0, 0, 0, None, [Caller(Closing, PORT_GONE)]);
    var closed := Channel(true, Busy(0), 1, 0, 0, None, [Caller(CallingBack, PORT_GONE)]);
    assert arrived.callers == [Caller(AtOnce, PORT_GONE)];
    assert Cancellation.Next(arrived, Advance(0)).callers == closing.callers;
    assert Cancellation.Next(closing, Advance(0)).callers == closed.callers;
    Append(INIT, a1, CallerSteps(0, 0));
    var a2 := a1 + [CallerSteps(0, 0)];
    assert After(INIT, a2).incs == [FRESH_INCARNATION.(watcher := WatcherCancels(0), ch := closing)];
    Append(INIT, a2, CallerSteps(0, 0));
    var a3 := a2 + [CallerSteps(0, 0)];
    assert After(INIT, a3).incs == [FRESH_INCARNATION.(watcher := WatcherCancels(0), ch := closed)];
    Append(INIT, a3, ManagerWakes);
    acts := StartOne(a3 + [ManagerWakes]);
  }

  // ---------- Whether a killed manager exits ----------

  /** The channel is closed, or will be: it has a caller, or its runner or its watcher is about to become one. */
  predicate Released(inc: Incarnation) {
    Cancelled(inc.ch) || inc.ch.callers != [] || inc.runner.ReadsErr? || inc.watcher.CheckCancelled?
  }

  /** The manager will get past its wait for this incarnation. */
  predicate ReleasesFrom(manager: ManagerPc, inc: Incarnation) {
    Released(inc) && !(manager.Returning? && inc.err.Some?)
  }

  /** A killed manager that can exit although the service it waits for does not end by itself. */
  predicate CanExit(s: State) {
    || s.manager.LoopHead? || s.manager.Exited?
    || (Awaiting(s.manager) && s.incs != [] && ReleasesFrom(s.manager, s.incs[|s.incs| - 1]))
  }

  /** Execute has returned an error, or is about to. */
  predicate Doomed(s: State) {
    s.manager.Panicked? || (s.manager.Returning? && s.incs != [] && s.incs[|s.incs| - 1].err.Some?)
  }

  /** Execute fails, or the service fails between the two halves of its return. */
  predicate Panics(s: State, a: Action) {
    || a == Execute(false)
    || (s.manager.Returning? && a.RunReturns? && a.i == |s.incs| - 1 && a.err.Some?)
  }

  /** The service that the manager waits for, or is about to wait for, ends by itself, and not so that Execute
      returns its error. */
  predicate AwaitedServiceEnds(s: State, a: Action) {
    Awaiting(s.manager) && a.RunReturns? && a.i == |s.incs| - 1 && !Panics(s, a)
  }

  predicate Unaided(s: State, acts: seq<Action>)
    requires Legal(s, acts)
    decreases |acts|
  {
    acts == [] || (!AwaitedServiceEnds(s, acts[0]) && Unaided(Next(s, acts[0]), acts[1..]))
  }

  predicate Exits(s: State, acts: seq<Action>) {
    Legal(s, acts) && After(s, acts).manager.Exited?
  }

  /** The goroutines of a killed incarnation see to the close of its channel only once its service ends. */
  lemma ReleasedStep(manager: ManagerPc, inc: Incarnation, a: Action)
    requires IncOk(inc) && IsIncAction(a) && IncEnabled(inc, a)
    requires manager.Returning? ==> inc.watcher.NotStarted?
    ensures ReleasesFrom(manager, IncNext(inc, true, a)) <==>
            ReleasesFrom(manager, inc) || (a.RunReturns? && !(manager.Returning? && a.err.Some?))
  {
  }

  lemma DoomedStep(s: State, a: Action)
    requires Inv(s) && Enabled(s, a)
    ensures Doomed(Next(s, a)) <==> Doomed(s) || Panics(s, a)
  {
    if a.RunReturns? {
      assert IncOk(s.incs[a.i]);
    }
  }

  predicate PanicsIn(s: State, acts: seq<Action>)
    requires Legal(s, acts)
    decreases |acts|
  {
    acts != [] && (Panics(s, acts[0]) || PanicsIn(Next(s, acts[0]), acts[1..]))
  }

  lemma {:induction false} DoomedAfterIff(s: State, acts: seq<Action>)
    requires Inv(s) && Legal(s, acts)
    ensures Doomed(After(s, acts)) <==> Doomed(s) || PanicsIn(s, acts)
    decreases |acts|
  {
    if acts != [] {
      DoomedStep(s, acts[0]);
      InvStep(s, acts[0]);
      DoomedAfterIff(Next(s, acts[0]), acts[1..]);
    }
  }

  /** In every run the manager panics, or is bound to, if and only if Execute failed before it started a
      service, or a service it had started failed between the two halves of its return. */
  lemma {:induction false} ManagerPanicsIff(acts: seq<Action>)
    requires Legal(INIT, acts)
    ensures Doomed(After(INIT, acts)) <==> PanicsIn(INIT, acts)
  {
    DoomedAfterIff(INIT, acts);
  }

  lemma CanExitIncStep(s: State, a: Action)
    requires Inv(s) && s.killed && Enabled(s, a) && IsIncAction(a)
    ensures CanExit(Next(s, a)) <==> CanExit(s) || AwaitedServiceEnds(s, a)
  {
    if a.i == |s.incs| - 1 {
      assert IncOk(s.incs[a.i]);
      ReleasedStep(s.manager, s.incs[a.i], a);
    }
  }

  lemma CanExitManagerStep(s: State, a: Action)
    requires Inv(s) && s.killed && Enabled(s, a) && !IsIncAction(a)
    ensures CanExit(Next(s, a)) <==> CanExit(s)
  {
    DoomedStep(s, a);
  }

  /** A service that fails while Execute returns makes the manager panic although it was started. */
  lemma StartedServiceCanPanic(e: string) returns (acts: seq<Action>)
    ensures Legal(INIT, acts) && Execute(false) !in acts
    ensures After(INIT, acts).manager.Panicked? && |After(INIT, acts).incs| == 1
  {
    var a0 := StartExecute([]);
    Append(INIT, a0, ManagerStoresNil);
    var a1 := a0 + [ManagerStoresNil];
    assert After(INIT, a1) == State(Returning, false, [FRESH_INCARNATION]);
    Append(INIT, a1, RunReturns(0, Some(e)));
    var a2 := a1 + [RunReturns(0, Some(e))];
    assert After(INIT, a2) == State(Returning, false, [FRESH_INCARNATION.(runner := ReadsErr, err := Some(e))]);
    Append(INIT, a2, ManagerReturns);
    acts := a2 + [ManagerReturns];
  }

  /** After a kill only the end of the awaited service lets a manager exit that could not before. */
  lemma CanExitStep(s: State, a: Action)
    requires Inv(s) && s.killed && Enabled(s, a)
    ensures CanExit(Next(s, a)) <==> CanExit(s) || AwaitedServiceEnds(s, a)
  {
    if IsIncAction(a) {
      CanExitIncStep(s, a);
    } else {
      CanExitManagerStep(s, a);
    }
  }

  /** Whatever else happens after a kill, the manager comes to be able to exit exactly when the service it
      waits for ends by itself. */
  lemma {:induction false} CanExitAfterIff(s: State, acts: seq<Action>)
    requires Inv(s) && s.killed && Legal(s, acts)
    ensures CanExit(After(s, acts)) <==> CanExit(s) || !Unaided(s, acts)
    decreases |acts|
  {
    if acts != [] {
      CanExitStep(s, acts[0]);
      InvStep(s, acts[0]);
      CanExitAfterIff(Next(s, acts[0]), acts[1..]);
    }
  }

  /** The step that brings the channel of incarnation i closer to its close. */
  function ReleaseStep(inc: Incarnation, i: nat): Action {
    if inc.ch.callers != [] then CallerSteps(i, Unblocker(inc.ch, 0))
    else if inc.runner.ReadsErr? then RunnerReadsErr(i)
    else WatcherReadsChannel(i)
  }

  /** What is left to do inside a channel that has not been closed: the first call, then the callers' steps. */
  function ChannelRank(ch: Channel): nat {
    if ch.callers == [] then 7 else StepsLeft(ch.callers)
  }

  lemma ReleaseStepLowers(inc: Incarnation, i: nat)
    requires IncOk(inc) && Released(inc) && !Cancelled(inc.ch)
    ensures var a := ReleaseStep(inc, i);
      && IsIncAction(a) && IncEnabled(inc, a)
      && ChannelRank(IncNext(inc, true, a).ch) < ChannelRank(inc.ch)
  {
    var a := ReleaseStep(inc, i);
    if a.CallerSteps? {
      CallersProgress(inc.ch, 0);
      AdvanceDecreases(inc.ch, a.k);
    } else {
      OneCallerRank(IncNext(inc, true, a).ch.callers);
    }
  }

  lemma OneCallerRank(callers: seq<Caller>)
    requires |callers| == 1 && callers[0].pc.AtOnce?
    ensures StepsLeft(callers) == 6
  {
    assert callers[..0] == [] && StepsLeft([]) == 0;
  }

  /** The next step of the way out, if there is one. */
  function ExitStep(s: State): Action
    requires CanExit(s)
  {
    match s.manager
    case Storing => ManagerStoresNil
    case Returning => ManagerReturns
    case Spawning => SpawnWatcher
    case Waiting =>
      var i := |s.incs| - 1;
      if Cancelled(s.incs[i].ch) then ManagerWakes else ReleaseStep(s.incs[i], i)
    case _ => ManagerReadsKill
  }

  function ManagerRank(manager: ManagerPc): nat {
    match manager
    case Storing => 5
    case Returning => 4
    case Spawning => 3
    case Waiting => 2
    case LoopHead => 1
    case _ => 0
  }

  function LatestRank(s: State): nat {
    if s.incs == [] then 0 else ChannelRank(s.incs[|s.incs| - 1].ch)
  }

  predicate Lowers(s: State, s': State) {
    && s'.killed && |s'.incs| == |s.incs|
    && (ManagerRank(s'.manager) < ManagerRank(s.manager)
        || (ManagerRank(s'.manager) == ManagerRank(s.manager) && LatestRank(s') < LatestRank(s)))
  }

  lemma WaitingStepLowers(s: State, i: nat)
    requires s.killed && s.manager.Waiting? && |s.incs| == i + 1
    requires IncOk(s.incs[i]) && Released(s.incs[i]) && !Cancelled(s.incs[i].ch)
    ensures var a := ReleaseStep(s.incs[i], i);
      Enabled(s, a) && !a.RunReturns? && !a.Execute? && Lowers(s, Next(s, a))
  {
    ReleaseStepLowers(s.incs[i], i);
    var a := ReleaseStep(s.incs[i], i);
    assert Next(s, a) == s.(incs := s.incs[i := IncNext(s.incs[i], true, a)]);
  }

  lemma ManagerStepLowers(s: State)
    requires s.killed && CanExit(s) && !s.manager.Exited?
    requires s.manager.Waiting? ==> s.incs != [] && Cancelled(s.incs[|s.incs| - 1].ch)
    ensures var a := ExitStep(s);
      Enabled(s, a) && !a.RunReturns? && !a.Execute? && Lowers(s, Next(s, a))
  {
  }

  lemma ExitStepLowers(s: State)
    requires Inv(s) && s.killed && CanExit(s) && !s.manager.Exited?
    ensures var a := ExitStep(s);
      Enabled(s, a) && !a.RunReturns? && !a.Execute? && Lowers(s, Next(s, a))
  {
    if s.manager.Waiting? && !Cancelled(s.incs[|s.incs| - 1].ch) {
      assert IncOk(s.incs[|s.incs| - 1]);
      WaitingStepLowers(s, |s.incs| - 1);
    } else {
      ManagerStepLowers(s);
    }
  }

  lemma {:induction false} WayOut(s: State) returns (acts: seq<Action>)
    requires Inv(s) && s.killed && CanExit(s)
    ensures Exits(s, acts) && Unaided(s, acts)
    decreases ManagerRank(s.manager), LatestRank(s)
  {
    if s.manager.Exited? {
      acts := [];
    } else {
      var a := ExitStep(s);
      ExitStepLowers(s);
      CanExitStep(s, a);
      InvStep(s, a);
      var rest := WayOut(Next(s, a));
      acts := [a] + rest;
      assert acts[1..] == rest;
    }
  }

  /**
    Without help from the service it waits for, a killed manager can exit if and only if it is neither
    panicked or bound to, nor past its loop test on the way to one more start, and the channel it waits for
    is closed, has a caller, or is about to get one from its runner or its watcher.
   */
  lemma {:induction false} KilledManagerExitsIff(s: State)
    requires Inv(s) && s.killed
    ensures (exists acts :: Exits(s, acts) && Unaided(s, acts)) <==> CanExit(s)
  {
    if CanExit(s) {
      var acts := WayOut(s);
      assert Exits(s, acts);
    }
    forall acts | Exits(s, acts) && Unaided(s, acts)
      ensures CanExit(s)
    {
      CanExitAfterIff(s, acts);
    }
  }

  lemma {:induction false} WayOutAided(s: State) returns (acts: seq<Action>)
    requires Inv(s) && s.killed && !Doomed(s)
    ensures Exits(s, acts)
    decreases
      if s.manager.PortProbe? then 3 else if s.manager.PortKill? then 2 else if s.manager.Executing? then 1 else 0
  {
    if CanExit(s) {
      acts := WayOut(s);
    } else {
      var a :=
        if s.manager.PortKill? then ManagerReadsKill
        else if s.manager.PortProbe? then ManagerProbesPort(false)
        else if s.manager.Executing? then Execute(true)
        else RunReturns(|s.incs| - 1, None);
      if a.RunReturns? {
        assert IncOk(s.incs[a.i]);
      }
      CanExitStep(s, a);
      DoomedStep(s, a);
      InvStep(s, a);
      var rest: seq<Action>;
      if a.RunReturns? {
        rest := WayOut(Next(s, a));
      } else {
        rest := WayOutAided(Next(s, a));
      }
      acts := [a] + rest;
      assert acts[1..] == rest;
    }
  }

  /** If that service may end, a killed manager can exit if and only if it has not panicked and is not bound to. */
  lemma {:induction false} KilledManagerExitsAidedIff(s: State)
    requires Inv(s) && s.killed
    ensures (exists acts :: Exits(s, acts)) <==> !Doomed(s)
  {
    if !Doomed(s) {
      var acts := WayOutAided(s);
    }
    forall acts | Exits(s, acts)
      ensures !Doomed(s)
    {
      DoomedAfterIff(s, acts);
    }
  }

  /** Killed while it waits, or is about to, for a channel that nothing but the end of its service closes. */
  predicate Stranded(s: State) {
    s.killed && Awaiting(s.manager) && !CanExit(s) && !Doomed(s)
  }

  /** After a kill the watcher leaves without cancelling, which can strand the manager. */
  lemma KillCanStrand() returns (acts: seq<Action>)
    ensures Legal(INIT, acts) && Stranded(After(INIT, acts))
    ensures var s := After(INIT, acts); s.incs != [] && s.incs[|s.incs| - 1].watcher.WatcherGone?
  {
    var a0 := StartOne([]);
    assert After(INIT, a0) == State(Waiting, false, [FRESH_INCARNATION.(watcher := LoopKill)]);
    Append(INIT, a0, Kill);
    var a1 := a0 + [Kill];
    Append(INIT, a1, WatcherReadsKill(0));
    var a2 := a1 + [WatcherReadsKill(0)];
    assert After(INIT, a2) == State(Waiting, true, [FRESH_INCARNATION.(watcher := CheckKill)]);
    Append(INIT, a2, WatcherReadsKill(0));
    acts := a2 + [WatcherReadsKill(0)];
  }

  lemma StrandedStep(s: State, a: Action)
    requires Inv(s) && Stranded(s) && Enabled(s, a)
    ensures |Next(s, a).incs| == |s.incs|
    ensures Stranded(Next(s, a)) <==> !(a.RunReturns? && a.i == |s.incs| - 1)
    ensures !Stranded(Next(s, a)) ==> CanExit(Next(s, a)) || Doomed(Next(s, a))
  {
    CanExitStep(s, a);
    DoomedStep(s, a);
  }

  /** A stranded manager stays so exactly until the service of its incarnation ends by itself. */
  lemma {:induction false} StrandedUntilServiceEnds(s: State, acts: seq<Action>)
    requires Inv(s) && Stranded(s) && Legal(s, acts)
    ensures (forall n :: 0 <= n < |acts| ==> !(acts[n].RunReturns? && acts[n].i == |s.incs| - 1)) <==>
      Stranded(After(s, acts))
    decreases |acts|
  {
    if acts != [] {
      var s' := Next(s, acts[0]);
      StrandedStep(s, acts[0]);
      InvStep(s, acts[0]);
      if acts[0].RunReturns? && acts[0].i == |s.incs| - 1 {
        CanExitAfterIff(s', acts[1..]);
        DoomedAfterIff(s', acts[1..]);
      } else {
        StrandedUntilServiceEnds(s', acts[1..]);
        assert forall n :: 0 <= n < |acts[1..]| ==> acts[1..][n] == acts[n + 1];
      }
    }
  }
}
