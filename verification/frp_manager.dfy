/** The supervisor as the object it is in the program, one method for each atomic step of its goroutines. */
module FrpManager {
  import opened Options
  import opened Cancellation
  import opened Supervisor

  class Manager {
    var pc: ManagerPc
    var killed: bool
    var incs: seq<Incarnation>
    ghost var history: seq<Action>

    function View(): State
      reads this
    {
      State(pc, killed, incs)
    }

    /** The fields hold the state that the recorded run leads to. */
    ghost predicate Valid()
      reads this
    {
      Supervisor.Legal(INIT, history) && View() == Supervisor.After(INIT, history)
    }

    constructor ()
      ensures Valid() && history == []
    {
      pc, killed, incs, history := LoopHead, false, [], [];
    }

    ghost method Record(a: Action)
      requires Supervisor.Legal(INIT, history) && Supervisor.Enabled(Supervisor.After(INIT, history), a)
      requires View() == Supervisor.Next(Supervisor.After(INIT, history), a)
      modifies this`history
      ensures Valid() && history == old(history) + [a]
    {
      Append(INIT, history, a);
      history := history + [a];
    }

    method SignalKill()
      requires Valid()
      modifies this
      ensures Valid() && history == old(history) + [Kill]
    {
      killed := true;
      Record(Kill);
    }

    // ---------- RunFRPc ----------

    /** The loop test of RunFRPc, or the first half of the loop test of the port wait. */
    method TestKill()
      requires Valid() && (pc.LoopHead? || pc.PortKill?)
      modifies this
      ensures Valid() && history == old(history) + [ManagerReadsKill]
    {
      if pc.LoopHead? {
        if killed {
          pc := Exited;
        } else {
          pc := PortKill;
        }
      } else if killed {
        pc := Executing;
      } else {
        pc := PortProbe;
      }
      Record(ManagerReadsKill);
    }

    method TestPort(available: bool)
      requires Valid() && pc.PortProbe?
      modifies this
      ensures Valid() && history == old(history) + [ManagerProbesPort(available)]
    {
      if available {
        pc := Executing;
      } else {
        pc := PortKill;
      }
      Record(ManagerProbesPort(available));
    }

    method StartService(ok: bool)
      requires Valid() && pc.Executing?
      modifies this
      ensures Valid() && history == old(history) + [Execute(ok)]
    {
      if !ok {
        pc := Panicked;
      } else {
        incs := incs + [FRESH_INCARNATION];
        pc := Storing;
      }
      Record(Execute(ok));
    }

    /** The return statement of Execute sets its result variable. */
    method StoreNil()
      requires Valid() && Supervisor.Enabled(View(), ManagerStoresNil)
      modifies this
      ensures Valid() && history == old(history) + [ManagerStoresNil]
    {
      var last := |incs| - 1;
      incs := incs[last := incs[last].(err := None)];
      pc := Returning;
      Record(ManagerStoresNil);
    }

    /** Execute returns what its result variable holds; an error panics. */
    method TakeResult()
      requires Valid() && Supervisor.Enabled(View(), ManagerReturns)
      modifies this
      ensures Valid() && history == old(history) + [ManagerReturns]
    {
      if incs[|incs| - 1].err.Some? {
        pc := Panicked;
      } else {
        pc := Spawning;
      }
      Record(ManagerReturns);
    }

    method StartWatcher()
      requires Valid() && pc.Spawning?
      modifies this
      ensures Valid() && history == old(history) + [SpawnWatcher]
    {
      Supervisor.RunKeepsInv(INIT, history);
      var last := |incs| - 1;
      incs := incs[last := incs[last].(watcher := LoopKill)];
      pc := Waiting;
      Record(SpawnWatcher);
    }

    method WakeUp()
      requires Valid() && Supervisor.Enabled(View(), ManagerWakes)
      modifies this
      ensures Valid() && history == old(history) + [ManagerWakes]
    {
      pc := LoopHead;
      Record(ManagerWakes);
    }

    // ---------- The watcher of incarnation i ----------

    method WatchKill(i: nat)
      requires Valid() && Supervisor.Enabled(View(), WatcherReadsKill(i))
      modifies this
      ensures Valid() && history == old(history) + [WatcherReadsKill(i)]
    {
      var inc := incs[i];
      if inc.watcher.LoopKill? {
        inc := inc.(watcher := if killed then CheckKill else LoopCancelled);
      } else {
        inc := inc.(watcher := if killed then WatcherGone else CheckCancelled);
      }
      incs := incs[i := inc];
      Record(WatcherReadsKill(i));
    }

    method WatchChannel(i: nat)
      requires Valid() && Supervisor.Enabled(View(), WatcherReadsChannel(i))
      modifies this
      ensures Valid() && history == old(history) + [WatcherReadsChannel(i)]
    {
      var inc := incs[i];
      if inc.watcher.LoopCancelled? {
        inc := inc.(watcher := if Cancelled(inc.ch) then CheckKill else LoopPort);
      } else if Cancelled(inc.ch) {
        inc := inc.(watcher := WatcherGone);
      } else {
        inc := inc.(watcher := WatcherCancels(|inc.ch.callers|));
        inc := inc.(ch := inc.ch.(callers := inc.ch.callers + [Caller(AtOnce, PORT_GONE)]));
      }
      incs := incs[i := inc];
      Record(WatcherReadsChannel(i));
    }

    method WatchPort(i: nat, available: bool)
      requires Valid() && Supervisor.Enabled(View(), WatcherProbesPort(i, available))
      modifies this
      ensures Valid() && history == old(history) + [WatcherProbesPort(i, available)]
    {
      incs := incs[i := incs[i].(watcher := if available then LoopKill else CheckKill)];
      Record(WatcherProbesPort(i, available));
    }

    // ---------- The goroutine of Execute, and the callers of the channel ----------

    method ServiceEnds(i: nat, err: Option<string>)
      requires Valid() && Supervisor.Enabled(View(), RunReturns(i, err))
      modifies this
      ensures Valid() && history == old(history) + [RunReturns(i, err)]
    {
      incs := incs[i := incs[i].(runner := ReadsErr, err := err)];
      Record(RunReturns(i, err));
    }

    method PassError(i: nat)
      requires Valid() && Supervisor.Enabled(View(), RunnerReadsErr(i))
      modifies this
      ensures Valid() && history == old(history) + [RunnerReadsErr(i)]
    {
      var inc := incs[i];
      inc := inc.(runner := RunnerCancels(|inc.ch.callers|));
      inc := inc.(ch := inc.ch.(callers := inc.ch.callers + [Caller(AtOnce, WithReason(inc.err))]));
      incs := incs[i := inc];
      Record(RunnerReadsErr(i));
    }

    method StepCaller(i: nat, k: nat)
      requires Valid() && Supervisor.Enabled(View(), CallerSteps(i, k))
      modifies this
      ensures Valid() && history == old(history) + [CallerSteps(i, k)]
    {
      incs := incs[i := incs[i].(ch := Cancellation.Next(incs[i].ch, Advance(k)))];
      Record(CallerSteps(i, k));
    }

    // ---------- Runs ----------

    /** Makes any step that is possible, through the method of the goroutine that takes it. */
    method Perform(a: Action)
      requires Valid() && Supervisor.Enabled(View(), a)
      modifies this
      ensures Valid() && history == old(history) + [a]
    {
      match a {
        case Kill => SignalKill();
        case ManagerReadsKill => TestKill();
        case ManagerProbesPort(available) => TestPort(available);
        case Execute(ok) => StartService(ok);
        case ManagerStoresNil => StoreNil();
        case ManagerReturns => TakeResult();
        case SpawnWatcher => StartWatcher();
        case ManagerWakes => WakeUp();
        case WatcherReadsKill(i) => WatchKill(i);
        case WatcherReadsChannel(i) => WatchChannel(i);
        case WatcherProbesPort(i, available) => WatchPort(i, available);
        case RunReturns(i, err) => ServiceEnds(i, err);
        case RunnerReadsErr(i) => PassError(i);
        case CallerSteps(i, k) => StepCaller(i, k);
      }
    }

    /** Brings a killed manager that can exit to its exit, without the end of any service and without a
        further start. */
    method Finish()
      requires Valid() && killed && CanExit(View())
      modifies this
      ensures Valid() && pc.Exited? && killed && |incs| == |old(incs)|
      ensures old(history) <= history
      ensures forall n :: |old(history)| <= n < |history| ==> !history[n].RunReturns? && !history[n].Execute?
    {
      while !pc.Exited?
        invariant Valid() && killed && CanExit(View()) && |incs| == |old(incs)|
        invariant old(history) <= history
        invariant forall n :: |old(history)| <= n < |history| ==> !history[n].RunReturns? && !history[n].Execute?
        decreases ManagerRank(pc), LatestRank(View())
      {
        Supervisor.RunKeepsInv(INIT, history);
        ghost var before := View();
        var a := ExitStep(View());
        ExitStepLowers(View());
        CanExitStep(View(), a);
        Append(INIT, history, a);
        Perform(a);
        assert View() == Supervisor.Next(before, a);
      }
    }
  }

  /** A new manager that has performed any given run: the object can do all that the transition system can. */
  method Replay(acts: seq<Action>) returns (m: Manager)
    requires Supervisor.Legal(INIT, acts)
    ensures fresh(m) && m.Valid() && m.history == acts && m.View() == Supervisor.After(INIT, acts)
  {
    m := new Manager();
    for i := 0 to |acts|
      invariant fresh(m) && m.Valid() && m.history == acts[..i]
    {
      PrefixStep(INIT, acts, i);
      m.Perform(acts[i]);
      assert acts[..i + 1] == acts[..i] + [acts[i]];
    }
    assert acts[..|acts|] == acts;
  }
}
