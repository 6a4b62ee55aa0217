/**
  Program order: in every run the steps of each goroutine, taken by themselves, are those of its source text
  from the top, statement by statement, along the branch that its frame decides.
 */
module CallOrder {
  import opened Options
  import opened CallProtocol
  import opened CallInvariants
  import opened CallCancellation
  import opened ReadLoop
  import opened Traces

  // ---------- The steps of one goroutine ----------

  datatype Goroutine = Handler(task: nat) | Writer(task: nat) | Loop(conn: nat)

  /** The action is a step of this goroutine; a send on reply is one of handler and writer. */
  predicate By(g: Goroutine, a: Action) {
    match g
    case Handler(t) => IsTaskAction(a) && a.t == t && !IsWriterAction(a)
    case Writer(t) => IsTaskAction(a) && a.t == t && (IsWriterAction(a) || a.Rendezvous?)
    case Loop(c) => IsConnAction(a) && a.c == c && !a.ParentCancels? && !a.ReaderGets?
  }

  /** The steps of this goroutine in a run. */
  function StepsOf(g: Goroutine, acts: seq<Action>): seq<Action> {
    if acts == [] then []
    else
      var last := acts[|acts| - 1];
      StepsOf(g, acts[..|acts| - 1]) + (if By(g, last) then [last] else [])
  }

  // ---------- The handler ----------

  /** What dispatchMessage and Handle do for a frame that makes no registered call, from top to end. */
  function Straight(frame: Frame, t: nat): seq<Action> {
    if frame.msgType != Some("call") then [LookUpHandler(t)]
    else match frame.call
      case None => [LookUpHandler(t), DecodeCall(t), CloseReply(t)]
      case Some(call) =>
        if call.callMethod == ".cancel" then
          [LookUpHandler(t), DecodeCall(t), Lock(t), Critical(t), Rendezvous(t), Unlock(t), CloseReply(t)]
        else [LookUpHandler(t), DecodeCall(t), Rendezvous(t), CloseReply(t)]
  }

  /** Up to the call handler of a registered method, and after it. */
  function Before(t: nat): seq<Action> {
    [LookUpHandler(t), DecodeCall(t), Lock(t), Critical(t), Unlock(t)]
  }

  function Behind(t: nat): seq<Action> {
    [HandlerReturns(t), Lock(t), Critical(t), Unlock(t), CloseReply(t)]
  }

  predicate CallsRegistered(cfg: Config, frame: Frame) {
    && frame.msgType == Some("call") && frame.call.Some?
    && frame.call.value.callMethod != ".cancel" && frame.call.value.callMethod in cfg.methods
  }

  /** What a call handler may have done when it is about to go on: sends that were received, and waits,
      during which events may have sent. */
  predicate Calm(body: seq<Action>, t: nat)
    decreases |body|
  {
    var n := |body|;
    || n == 0
    || (n >= 2 && body[n - 1] == Rendezvous(t) && body[n - 2].HandlerSends? && body[n - 2].t == t
        && Calm(body[..n - 2], t))
    || (body[n - 1] == HandlerWakes(t) && Awaiting(body[..n - 1], t))
  }

  /** And when it waits for its context. */
  predicate Awaiting(body: seq<Action>, t: nat)
    decreases |body|
  {
    var n := |body|;
    && n > 0
    && (|| (body[n - 1] == HandlerWaits(t) && Calm(body[..n - 1], t))
        || (n >= 2 && body[n - 1] == Rendezvous(t) && body[n - 2].EventSends? && body[n - 2].t == t
            && Awaiting(body[..n - 2], t)))
  }

  /** The body between Before and the last m steps. */
  function Body(steps: seq<Action>, m: nat): seq<Action>
    requires 5 + m <= |steps|
  {
    steps[5..|steps| - m]
  }

  /** How many steps of Straight lead to this program counter. */
  function StraightStage(frame: Frame, h: HandlerPc): nat {
    match h
    case NotStarted => 0
    case NoHandler => 1
    case Start => 1
    case WantLock(_) => 2
    case InLock(_) => 3
    case Sending(_, from) => if from.FromCancel? then 4 else 2
    case Leaving(_) => 5
    case Returned => |Straight(frame, 0)| - 1
    case Closed => |Straight(frame, 0)|
    case _ => 0
  }

  /** Inside the call handler. */
  predicate BodyAt(h: HandlerPc, t: nat, body: seq<Action>) {
    var n := |body|;
    match h
    case Running => Calm(body, t)
    case Parked => Awaiting(body, t)
    case Sending(msg, FromHandler) => n > 0 && body[n - 1] == HandlerSends(t, msg) && Calm(body[..n - 1], t)
    case Sending(msg, FromEvent) => n > 0 && body[n - 1] == EventSends(t, msg) && Awaiting(body[..n - 1], t)
    case _ => false
  }

  predicate RegisteredAt(h: HandlerPc, t: nat, steps: seq<Action>) {
    match h
    case NotStarted => steps == []
    case Start => steps == Before(t)[..1]
    case WantLock(Register) => steps == Before(t)[..2]
    case InLock(Register) => steps == Before(t)[..3]
    case Leaving(Register) => steps == Before(t)[..4]
    case WantLock(Deregister) => EndsWith(steps, t, 1)
    case InLock(Deregister) => EndsWith(steps, t, 2)
    case Leaving(Deregister) => EndsWith(steps, t, 3)
    case Returned => EndsWith(steps, t, 4)
    case Closed => EndsWith(steps, t, 5)
    case _ => BodyFrom(steps, t) && BodyAt(h, t, steps[5..])
  }

  predicate BodyFrom(steps: seq<Action>, t: nat) {
    Before(t) <= steps
  }

  /** The call handler has returned, and m steps were taken from there. */
  predicate EndsWith(steps: seq<Action>, t: nat, m: nat) {
    && BodyFrom(steps, t) && m <= 5 && 5 + m <= |steps|
    && steps[|steps| - m..] == Behind(t)[..m] && Calm(Body(steps, m), t)
  }

  predicate HandlerAt(cfg: Config, k: Task, t: nat, steps: seq<Action>) {
    if CallsRegistered(cfg, k.frame) then RegisteredAt(k.h, t, steps)
    else
      && StraightStage(k.frame, k.h) <= |Straight(k.frame, t)|
      && steps == Straight(k.frame, t)[..StraightStage(k.frame, k.h)]
  }

  lemma StraightStep(cfg: Config, k: Task, parentCancelled: bool, a: Action, t: nat)
    requires TaskOk(cfg, k) && !CallsRegistered(cfg, k.frame)
    requires By(Handler(t), a) && !a.Critical? && LocallyEnabled(k, a)
    ensures StraightStage(k.frame, k.h) < |Straight(k.frame, t)|
    ensures Straight(k.frame, t)[StraightStage(k.frame, k.h)] == a
    ensures StraightStage(k.frame, HandlerNext(cfg, k, parentCancelled, a).h) == StraightStage(k.frame, k.h) + 1
  {
  }

  lemma StraightCritical(cfg: Config, s: State, t: nat)
    requires t < |s.tasks| && s.tasks[t].h.InLock?
    requires TaskOk(cfg, s.tasks[t]) && !CallsRegistered(cfg, s.tasks[t].frame)
    ensures var k, k' := s.tasks[t], CriticalNext(s, t).tasks[t];
      && StraightStage(k.frame, k.h) < |Straight(k.frame, t)|
      && Straight(k.frame, t)[StraightStage(k.frame, k.h)] == Critical(t)
      && StraightStage(k.frame, k'.h) == StraightStage(k.frame, k.h) + 1
  {
  }

  /** Steps of a registered call before its call handler. */
  lemma RegisteredBefore(cfg: Config, k: Task, parentCancelled: bool, a: Action, t: nat, steps: seq<Action>)
    requires TaskOk(cfg, k) && CallsRegistered(cfg, k.frame) && RegisteredAt(k.h, t, steps)
    requires By(Handler(t), a) && !a.Critical? && LocallyEnabled(k, a)
    requires k.h.NotStarted? || k.h.Start? || k.h == WantLock(Register) || k.h == Leaving(Register)
    ensures RegisteredAt(HandlerNext(cfg, k, parentCancelled, a).h, t, steps + [a])
  {
    if k.h == Leaving(Register) {
      assert steps + [a] == Before(t) && (steps + [a])[5..] == [];
    }
  }

  /** And behind it. */
  lemma RegisteredBehind(cfg: Config, k: Task, parentCancelled: bool, a: Action, t: nat, steps: seq<Action>)
    requires TaskOk(cfg, k) && CallsRegistered(cfg, k.frame) && RegisteredAt(k.h, t, steps)
    requires By(Handler(t), a) && !a.Critical? && LocallyEnabled(k, a)
    requires k.h == WantLock(Deregister) || k.h == Leaving(Deregister) || k.h.Returned?
    ensures RegisteredAt(HandlerNext(cfg, k, parentCancelled, a).h, t, steps + [a])
  {
    EndsStep(steps, a, t, if k.h.WantLock? then 1 else if k.h.Leaving? then 3 else 4);
  }

  lemma EndsStep(steps: seq<Action>, a: Action, t: nat, m: nat)
    requires EndsWith(steps, t, m) && m < 5 && a == Behind(t)[m]
    ensures EndsWith(steps + [a], t, m + 1)
  {
    var steps' := steps + [a];
    assert Body(steps', m + 1) == Body(steps, m);
    assert steps'[|steps'| - (m + 1)..] == steps[|steps| - m..] + [a];
  }

  lemma BodyStep(cfg: Config, k: Task, parentCancelled: bool, a: Action, t: nat, body: seq<Action>)
    requires By(Handler(t), a) && !a.Critical? && !a.HandlerReturns? && LocallyEnabled(k, a) && BodyAt(k.h, t, body)
    ensures BodyAt(HandlerNext(cfg, k, parentCancelled, a).h, t, body + [a])
  {
    var body' := body + [a];
    assert body'[..|body|] == body;
    if a.Rendezvous? {
      assert body'[..|body'| - 2] == body[..|body| - 1];
    }
  }

  /** Steps of the call handler itself and of its events. */
  lemma RegisteredBody(cfg: Config, k: Task, parentCancelled: bool, a: Action, t: nat, steps: seq<Action>)
    requires BodyFrom(steps, t) && BodyAt(k.h, t, steps[5..])
    requires By(Handler(t), a) && !a.Critical? && LocallyEnabled(k, a)
    ensures RegisteredAt(HandlerNext(cfg, k, parentCancelled, a).h, t, steps + [a])
  {
    var steps' := steps + [a];
    assert steps'[5..] == steps[5..] + [a];
    if a.HandlerReturns? {
      assert Body(steps', 1) == steps[5..];
      assert steps'[|steps'| - 1..] == [a] == Behind(t)[..1];
    } else {
      BodyStep(cfg, k, parentCancelled, a, t, steps[5..]);
    }
  }

  lemma RegisteredCritical(cfg: Config, s: State, t: nat, steps: seq<Action>)
    requires t < |s.tasks| && s.tasks[t].h.InLock?
    requires TaskOk(cfg, s.tasks[t]) && CallsRegistered(cfg, s.tasks[t].frame) && RegisteredAt(s.tasks[t].h, t, steps)
    ensures RegisteredAt(CriticalNext(s, t).tasks[t].h, t, steps + [Critical(t)])
  {
    if s.tasks[t].h == InLock(Deregister) {
      EndsStep(steps, Critical(t), t, 2);
    }
  }

  lemma HandlerAtCritical(cfg: Config, s: State, t: nat, steps: seq<Action>)
    requires t < |s.tasks| && s.tasks[t].h.InLock?
    requires TaskOk(cfg, s.tasks[t]) && HandlerAt(cfg, s.tasks[t], t, steps)
    ensures HandlerAt(cfg, CriticalNext(s, t).tasks[t], t, steps + [Critical(t)])
  {
    var k := s.tasks[t];
    var straight, stage := Straight(k.frame, t), StraightStage(k.frame, k.h);
    CriticalTasks(s, t);
    if CallsRegistered(cfg, k.frame) {
      RegisteredCritical(cfg, s, t, steps);
    } else {
      StraightCritical(cfg, s, t);
      assert straight[..stage] + [Critical(t)] == straight[..stage + 1];
    }
  }

  lemma HandlerAtStraight(cfg: Config, k: Task, parentCancelled: bool, a: Action, t: nat, steps: seq<Action>)
    requires By(Handler(t), a) && !a.Critical? && LocallyEnabled(k, a)
    requires TaskOk(cfg, k) && !CallsRegistered(cfg, k.frame) && HandlerAt(cfg, k, t, steps)
    ensures HandlerAt(cfg, HandlerNext(cfg, k, parentCancelled, a), t, steps + [a])
  {
    var straight, stage := Straight(k.frame, t), StraightStage(k.frame, k.h);
    HandlerKeepsFrame(cfg, k, parentCancelled, a);
    StraightStep(cfg, k, parentCancelled, a, t);
    assert straight[..stage] + [a] == straight[..stage + 1];
  }

  lemma HandlerAtRegistered(cfg: Config, k: Task, parentCancelled: bool, a: Action, t: nat, steps: seq<Action>)
    requires By(Handler(t), a) && !a.Critical? && LocallyEnabled(k, a)
    requires TaskOk(cfg, k) && CallsRegistered(cfg, k.frame) && RegisteredAt(k.h, t, steps)
    ensures RegisteredAt(HandlerNext(cfg, k, parentCancelled, a).h, t, steps + [a])
  {
    if k.h.Running? || k.h.Parked? || k.h.Sending? {
      RegisteredBody(cfg, k, parentCancelled, a, t, steps);
    } else if k.h.NotStarted? || k.h.Start? || k.h == WantLock(Register) || k.h == Leaving(Register) {
      RegisteredBefore(cfg, k, parentCancelled, a, t, steps);
    } else {
      RegisteredBehind(cfg, k, parentCancelled, a, t, steps);
    }
  }

  lemma HandlerAtOwnStep(cfg: Config, s: State, a: Action, t: nat, steps: seq<Action>)
    requires Enabled(s, a) && By(Handler(t), a) && TaskOk(cfg, s.tasks[t]) && HandlerAt(cfg, s.tasks[t], t, steps)
    ensures t < |Next(cfg, s, a).tasks| && HandlerAt(cfg, Next(cfg, s, a).tasks[t], t, steps + [a])
  {
    if a.Critical? {
      CriticalTasks(s, t);
      HandlerAtCritical(cfg, s, t, steps);
    } else {
      var parentCancelled := s.conns[s.tasks[t].conn].cancelled;
      TaskStepTasks(cfg, s, a);
      HandlerKeepsFrame(cfg, s.tasks[t], parentCancelled, a);
      if CallsRegistered(cfg, s.tasks[t].frame) {
        HandlerAtRegistered(cfg, s.tasks[t], parentCancelled, a, t, steps);
      } else {
        HandlerAtStraight(cfg, s.tasks[t], parentCancelled, a, t, steps);
      }
    }
  }

  lemma HandlerKeepsFrame(cfg: Config, k: Task, parentCancelled: bool, a: Action)
    requires IsTaskAction(a) && !IsWriterAction(a) && !a.Critical? && LocallyEnabled(k, a)
    ensures HandlerNext(cfg, k, parentCancelled, a).frame == k.frame
  {
  }

  /** A step of another task leaves both goroutines where they are. */
  lemma TaskWaits(cfg: Config, s: State, a: Action, t: nat)
    requires Enabled(s, a) && t < |s.tasks| && !(IsTaskAction(a) && a.t == t)
    ensures t < |Next(cfg, s, a).tasks|
    ensures var k, k' := s.tasks[t], Next(cfg, s, a).tasks[t]; k'.w == k.w && k'.h == k.h && k'.frame == k.frame
  {
    if a.Critical? {
      CriticalTasks(s, a.t);
    } else {
      StepTasks(cfg, s, a);
    }
  }

  /** A step that is not its own leaves a handler where it is. */
  lemma HandlerElsewhere(cfg: Config, s: State, a: Action, t: nat)
    requires Enabled(s, a) && t < |s.tasks| && !By(Handler(t), a)
    ensures t < |Next(cfg, s, a).tasks|
    ensures Next(cfg, s, a).tasks[t].h == s.tasks[t].h && Next(cfg, s, a).tasks[t].frame == s.tasks[t].frame
  {
    if IsTaskAction(a) && a.t == t {
      TaskStepTasks(cfg, s, a);
    } else {
      TaskWaits(cfg, s, a, t);
    }
  }

  lemma NewTaskNotStarted(cfg: Config, s: State, a: Action, t: nat)
    requires Enabled(s, a) && |s.tasks| <= t < |Next(cfg, s, a).tasks|
    ensures Next(cfg, s, a).tasks[t].h.NotStarted? && Next(cfg, s, a).tasks[t].w.Unstarted?
    ensures !IsTaskAction(a)
  {
    if a.Critical? {
      CriticalTasks(s, a.t);
    } else {
      StepTasks(cfg, s, a);
    }
  }

  /** No step of a task comes before the task. */
  lemma {:induction false} NoStepsYet(cfg: Config, acts: seq<Action>, g: Goroutine)
    requires Legal(cfg, acts) && !g.Loop? && |After(cfg, acts).tasks| <= g.task
    ensures StepsOf(g, acts) == []
  {
    if acts != [] {
      var front := acts[..|acts| - 1];
      ConnsGrow(cfg, acts, |front|);
      assert StateAt(cfg, acts, |front|) == After(cfg, front);
      NoStepsYet(cfg, front, g);
    }
  }

  lemma HandlerOrderStep(cfg: Config, s: State, a: Action, t: nat, steps: seq<Action>)
    requires TasksOk(cfg, s) && Enabled(s, a) && t < |Next(cfg, s, a).tasks|
    requires if t < |s.tasks| then HandlerAt(cfg, s.tasks[t], t, steps) else steps == []
    ensures HandlerAt(cfg, Next(cfg, s, a).tasks[t], t, steps + (if By(Handler(t), a) then [a] else []))
  {
    if t >= |s.tasks| {
      NewTaskNotStarted(cfg, s, a, t);
    } else if By(Handler(t), a) {
      HandlerAtOwnStep(cfg, s, a, t, steps);
    } else {
      HandlerElsewhere(cfg, s, a, t);
      assert steps + [] == steps;
    }
  }

  /** In every run, the steps of a handler are, in order, those that lead in its source text to where it is. */
  lemma {:induction false} HandlerOrder(cfg: Config, acts: seq<Action>, t: nat)
    requires Legal(cfg, acts) && t < |After(cfg, acts).tasks|
    ensures HandlerAt(cfg, After(cfg, acts).tasks[t], t, StepsOf(Handler(t), acts))
  {
    var front := acts[..|acts| - 1];
    Reachable(cfg, front);
    if t < |After(cfg, front).tasks| {
      HandlerOrder(cfg, front, t);
    } else {
      NoStepsYet(cfg, front, Handler(t));
    }
    HandlerOrderStep(cfg, After(cfg, front), acts[|acts| - 1], t, StepsOf(Handler(t), front));
  }

  /** Before reply is closed a handler has done all that its source text says, in that order. */
  lemma {:induction false} ClosedHandlerDidAll(cfg: Config, acts: seq<Action>, t: nat)
    requires Legal(cfg, acts) && t < |After(cfg, acts).tasks|
    requires After(cfg, acts).tasks[t].h.Closed? || After(cfg, acts).tasks[t].h.NoHandler?
    ensures var frame := After(cfg, acts).tasks[t].frame;
      if CallsRegistered(cfg, frame) then
        exists body :: Calm(body, t) && StepsOf(Handler(t), acts) == Before(t) + body + Behind(t)
      else StepsOf(Handler(t), acts) == Straight(frame, t)
  {
    HandlerOrder(cfg, acts, t);
    Reachable(cfg, acts);
    WholeText(cfg, After(cfg, acts).tasks[t], t, StepsOf(Handler(t), acts));
  }

  lemma WholeText(cfg: Config, k: Task, t: nat, steps: seq<Action>)
    requires TaskOk(cfg, k) && HandlerAt(cfg, k, t, steps) && (k.h.Closed? || k.h.NoHandler?)
    ensures if CallsRegistered(cfg, k.frame) then
              exists body :: Calm(body, t) && steps == Before(t) + body + Behind(t)
            else steps == Straight(k.frame, t)
  {
    if CallsRegistered(cfg, k.frame) {
      assert steps == steps[..5] + Body(steps, 5) + steps[|steps| - 5..];
    } else {
      StraightLength(k.frame, t);
      assert Straight(k.frame, t)[..|Straight(k.frame, t)|] == Straight(k.frame, t);
    }
  }

  lemma StraightLength(frame: Frame, t: nat)
    ensures |Straight(frame, t)| == |Straight(frame, 0)|
  {
  }

  // ---------- The writer ----------

  /** Whole turns of the writer's range loop: a message, the lock, one attempt, d.cancel() exactly if it
      failed, the unlock. */
  predicate Rounds(steps: seq<Action>, t: nat)
    decreases |steps|
  {
    || steps == []
    || (Ends(steps, [Rendezvous(t), LockWrite(t), Write(t, true), UnlockWrite(t)]) && Rounds(Without(steps, 4), t))
    || (Ends(steps, [Rendezvous(t), LockWrite(t), Write(t, false), CancelAfterFailure(t), UnlockWrite(t)])
        && Rounds(Without(steps, 5), t))
  }

  predicate RoundsThen(steps: seq<Action>, t: nat, tail: seq<Action>) {
    Ends(steps, tail) && Rounds(Without(steps, |tail|), t)
  }

  /** What of a turn the writer has behind it. */
  predicate TurnSoFar(w: WriterPc, t: nat, tail: seq<Action>) {
    match w
    case Unstarted => false
    case Recv => tail == []
    case WantWrite(_) => tail == [Rendezvous(t)]
    case Writing(_) => tail == [Rendezvous(t), LockWrite(t)]
    case Failing => tail == [Rendezvous(t), LockWrite(t), Write(t, false)]
    case Unlocking =>
      || tail == [Rendezvous(t), LockWrite(t), Write(t, true)]
      || tail == [Rendezvous(t), LockWrite(t), Write(t, false), CancelAfterFailure(t)]
    case End => tail == [WriterEnds(t)]
  }

  /** noHandler says that the task ended without a handler, so that its writer never ran. */
  ghost predicate WriterAt(w: WriterPc, noHandler: bool, t: nat, steps: seq<Action>) {
    if w.Unstarted? || noHandler then steps == []
    else exists tail :: TurnSoFar(w, t, tail) && RoundsThen(steps, t, tail)
  }

  lemma RoundsMore(steps: seq<Action>, t: nat, tail: seq<Action>, a: Action)
    requires RoundsThen(steps, t, tail)
    ensures RoundsThen(steps + [a], t, tail + [a])
  {
    EndsMore(steps, tail, a);
  }

  /** The unlock completes a turn. */
  lemma RoundsUnlock(steps: seq<Action>, t: nat, tail: seq<Action>)
    requires RoundsThen(steps, t, tail) && TurnSoFar(Unlocking, t, tail)
    ensures RoundsThen(steps + [UnlockWrite(t)], t, [])
  {
    var steps' := steps + [UnlockWrite(t)];
    EndsMore(steps, tail, UnlockWrite(t));
    assert Without(steps', 0) == steps' && steps'[|steps'|..] == [];
  }

  /** The pc of the writer after one of its steps. */
  function WriterAfter(k: Task, a: Action): WriterPc
    requires (IsWriterAction(a) || a.Rendezvous?) && LocallyEnabled(k, a)
  {
    if a.Rendezvous? then WantWrite(k.h.msg) else WriterNext(k, a).w
  }

  lemma TurnGoesOn(k: Task, a: Action, t: nat, tail: seq<Action>)
    requires (IsWriterAction(a) || a.Rendezvous?) && !a.UnlockWrite? && a.t == t && LocallyEnabled(k, a)
    requires TurnSoFar(k.w, t, tail)
    ensures TurnSoFar(WriterAfter(k, a), t, tail + [a])
  {
  }

  lemma WriterTurn(k: Task, a: Action, t: nat, steps: seq<Action>)
    requires (IsWriterAction(a) || a.Rendezvous?) && a.t == t && LocallyEnabled(k, a)
    requires !k.w.Unstarted? && WriterAt(k.w, false, t, steps)
    ensures WriterAt(WriterAfter(k, a), false, t, steps + [a])
  {
    var tail :| TurnSoFar(k.w, t, tail) && RoundsThen(steps, t, tail);
    if a.UnlockWrite? {
      RoundsUnlock(steps, t, tail);
    } else {
      TurnGoesOn(k, a, t, tail);
      RoundsMore(steps, t, tail, a);
    }
  }

  lemma WriterOwnStep(cfg: Config, s: State, a: Action, t: nat)
    requires Enabled(s, a) && By(Writer(t), a) && TaskOk(cfg, s.tasks[t])
    ensures t < |Next(cfg, s, a).tasks|
    ensures !s.tasks[t].h.NoHandler? && !Next(cfg, s, a).tasks[t].h.NoHandler?
    ensures Next(cfg, s, a).tasks[t].w == WriterAfter(s.tasks[t], a)
  {
    TaskStepTasks(cfg, s, a);
  }

  /** A step that a writer does not take leaves it where it is, or starts it. */
  lemma WriterElsewhere(cfg: Config, s: State, a: Action, t: nat)
    requires Enabled(s, a) && t < |s.tasks| && TaskOk(cfg, s.tasks[t]) && !By(Writer(t), a)
    ensures t < |Next(cfg, s, a).tasks|
    ensures var k, k' := s.tasks[t], Next(cfg, s, a).tasks[t];
      && (k'.w == k.w || (k.w.Unstarted? && (k'.w.Recv? || (k'.w.End? && k'.h.NoHandler?))))
      && (!k.w.Unstarted? ==> k'.h.NoHandler? == k.h.NoHandler?)
  {
    if !(IsTaskAction(a) && a.t == t) {
      TaskWaits(cfg, s, a, t);
    } else if a.Critical? {
      CriticalTasks(s, t);
    } else {
      TaskStepTasks(cfg, s, a);
    }
  }

  lemma WriterOrderStep(cfg: Config, s: State, a: Action, t: nat, steps: seq<Action>)
    requires TasksOk(cfg, s) && Enabled(s, a) && t < |Next(cfg, s, a).tasks|
    requires if t < |s.tasks| then WriterAt(s.tasks[t].w, s.tasks[t].h.NoHandler?, t, steps) else steps == []
    ensures var k := Next(cfg, s, a).tasks[t];
      WriterAt(k.w, k.h.NoHandler?, t, steps + (if By(Writer(t), a) then [a] else []))
  {
    if t >= |s.tasks| {
      NewTaskNotStarted(cfg, s, a, t);
    } else if By(Writer(t), a) {
      WriterOwnStep(cfg, s, a, t);
      WriterTurn(s.tasks[t], a, t, steps);
    } else {
      WriterElsewhere(cfg, s, a, t);
      assert steps + [] == steps;
      assert TurnSoFar(Recv, t, []) && RoundsThen([], t, []);
    }
  }

  /** In every run the steps of a writer are whole turns of its loop and the part of one that leads to where
      it is; it ends after whole turns only. */
  lemma {:induction false} WriterOrder(cfg: Config, acts: seq<Action>, t: nat)
    requires Legal(cfg, acts) && t < |After(cfg, acts).tasks|
    ensures var k := After(cfg, acts).tasks[t]; WriterAt(k.w, k.h.NoHandler?, t, StepsOf(Writer(t), acts))
  {
    var front := acts[..|acts| - 1];
    Reachable(cfg, front);
    if t < |After(cfg, front).tasks| {
      WriterOrder(cfg, front, t);
    } else {
      NoStepsYet(cfg, front, Writer(t));
    }
    WriterOrderStep(cfg, After(cfg, front), acts[|acts| - 1], t, StepsOf(Writer(t), front));
  }

  // ---------- The read loop ----------

  /** Whole turns of the for loop. */
  predicate Laps(steps: seq<Action>, c: nat)
    decreases |steps|
  {
    || steps == []
    || (Ends(steps, [StartRead(c), LoopReceives(c), LoopHandles(c)]) && Laps(Without(steps, 3), c))
  }

  predicate LapsThen(steps: seq<Action>, c: nat, tail: seq<Action>) {
    Ends(steps, tail) && Laps(Without(steps, |tail|), c)
  }

  /** What of a turn, or of the way out, the loop has behind it: it leaves by handling a result or by seeing its
      context done. */
  predicate LapSoFar(loop: LoopPc, c: nat, tail: seq<Action>) {
    match loop
    case Idle => tail == []
    case Selecting(_) => tail == [StartRead(c)]
    case Got(_) => tail == [StartRead(c), LoopReceives(c)]
    case Broken =>
      || tail == [StartRead(c), LoopReceives(c), LoopHandles(c)]
      || tail == [StartRead(c), LoopSeesDone(c)]
    case Closing =>
      || tail == [StartRead(c), LoopReceives(c), LoopHandles(c), LoopCancels(c)]
      || tail == [StartRead(c), LoopSeesDone(c), LoopCancels(c)]
    case Exited =>
      || tail == [StartRead(c), LoopReceives(c), LoopHandles(c), LoopCancels(c), LoopCloses(c)]
      || tail == [StartRead(c), LoopSeesDone(c), LoopCancels(c), LoopCloses(c)]
  }

  ghost predicate LoopAt(loop: LoopPc, c: nat, steps: seq<Action>) {
    exists tail :: LapSoFar(loop, c, tail) && LapsThen(steps, c, tail)
  }

  lemma LapsMore(steps: seq<Action>, c: nat, tail: seq<Action>, a: Action)
    requires LapsThen(steps, c, tail)
    ensures LapsThen(steps + [a], c, tail + [a])
  {
    EndsMore(steps, tail, a);
  }

  /** Handling a result without leaving completes a turn. */
  lemma LapsHandle(steps: seq<Action>, c: nat)
    requires LapsThen(steps, c, [StartRead(c), LoopReceives(c)])
    ensures LapsThen(steps + [LoopHandles(c)], c, [])
  {
    var steps' := steps + [LoopHandles(c)];
    LapsMore(steps, c, [StartRead(c), LoopReceives(c)], LoopHandles(c));
    assert Without(steps', 0) == steps' && steps'[|steps'|..] == [];
  }

  lemma LapGoesOn(cfg: Config, n: Conn, tasks: nat, a: Action, c: nat, tail: seq<Action>)
    requires By(Loop(c), a) && ConnEnabled(n, a) && LapSoFar(n.loop, c, tail)
    requires !LoopNext(cfg, n, tasks, a).loop.Idle?
    ensures LapSoFar(LoopNext(cfg, n, tasks, a).loop, c, tail + [a])
  {
  }

  lemma LoopTurn(cfg: Config, n: Conn, tasks: nat, a: Action, c: nat, steps: seq<Action>)
    requires By(Loop(c), a) && ConnEnabled(n, a) && LoopAt(n.loop, c, steps)
    requires !LoopNext(cfg, n, tasks, a).loop.Idle?
    ensures LoopAt(LoopNext(cfg, n, tasks, a).loop, c, steps + [a])
  {
    var tail :| LapSoFar(n.loop, c, tail) && LapsThen(steps, c, tail);
    LapGoesOn(cfg, n, tasks, a, c, tail);
    LapsMore(steps, c, tail, a);
  }

  lemma LoopTurnEnds(loop: LoopPc, c: nat, steps: seq<Action>)
    requires loop.Got? && LoopAt(loop, c, steps)
    ensures LoopAt(Idle, c, steps + [LoopHandles(c)])
  {
    LapsHandle(steps, c);
    assert LapSoFar(Idle, c, []);
  }

  lemma LoopOwnStep(cfg: Config, s: State, a: Action, c: nat)
    requires Enabled(s, a) && By(Loop(c), a)
    ensures c < |Next(cfg, s, a).conns|
    ensures Next(cfg, s, a).conns[c].loop == LoopNext(cfg, s.conns[c], |s.tasks|, a).loop
  {
  }

  lemma LoopElsewhere(cfg: Config, s: State, a: Action, c: nat)
    requires Enabled(s, a) && c < |s.conns| && !By(Loop(c), a)
    ensures c < |Next(cfg, s, a).conns| && Next(cfg, s, a).conns[c].loop == s.conns[c].loop
  {
    if IsTaskAction(a) {
      TaskStepReading(cfg, s, a);
    } else if IsConnAction(a) {
      NextConns(cfg, s, a);
    }
  }

  lemma LoopOrderStep(cfg: Config, s: State, a: Action, c: nat, steps: seq<Action>)
    requires Enabled(s, a) && c < |Next(cfg, s, a).conns|
    requires if c < |s.conns| then LoopAt(s.conns[c].loop, c, steps) else steps == []
    ensures LoopAt(Next(cfg, s, a).conns[c].loop, c, steps + (if By(Loop(c), a) then [a] else []))
  {
    if c < |s.conns| {
      if By(Loop(c), a) {
        LoopOwnStep(cfg, s, a, c);
        if Next(cfg, s, a).conns[c].loop.Idle? {
          LoopTurnEnds(s.conns[c].loop, c, steps);
        } else {
          LoopTurn(cfg, s.conns[c], |s.tasks|, a, c, steps);
        }
      } else {
        LoopElsewhere(cfg, s, a, c);
        assert steps + [] == steps;
      }
    } else {
      NewConnIdle(cfg, s, a, c);
      assert LapSoFar(Idle, c, []) && LapsThen([], c, []);
    }
  }

  lemma NewConnIdle(cfg: Config, s: State, a: Action, c: nat)
    requires Enabled(s, a) && |s.conns| <= c < |Next(cfg, s, a).conns|
    ensures a.OpenConn? && Next(cfg, s, a).conns[c].loop.Idle?
  {
  }

  lemma {:induction false} NoLoopStepsYet(cfg: Config, acts: seq<Action>, c: nat)
    requires Legal(cfg, acts) && |After(cfg, acts).conns| <= c
    ensures StepsOf(Loop(c), acts) == []
  {
    if acts != [] {
      var front := acts[..|acts| - 1];
      ConnsGrow(cfg, acts, |front|);
      assert StateAt(cfg, acts, |front|) == After(cfg, front);
      NoLoopStepsYet(cfg, front, c);
    }
  }

  /** In every run the steps of a read loop are whole turns and the part of one that leads to where it is; after it
      left come the cancel and the close of the socket. */
  lemma {:induction false} LoopOrder(cfg: Config, acts: seq<Action>, c: nat)
    requires Legal(cfg, acts) && c < |After(cfg, acts).conns|
    ensures LoopAt(After(cfg, acts).conns[c].loop, c, StepsOf(Loop(c), acts))
  {
    var front := acts[..|acts| - 1];
    if c < |After(cfg, front).conns| {
      LoopOrder(cfg, front, c);
    } else {
      NoLoopStepsYet(cfg, front, c);
    }
    LoopOrderStep(cfg, After(cfg, front), acts[|acts| - 1], c, StepsOf(Loop(c), front));
  }

  /** The step in which the loop of connection c leaves: it sees its context done, or handles a close or an
      error, the last result it received. */
  ghost predicate LeavesAt(cfg: Config, acts: seq<Action>, i: nat, c: nat)
    requires Legal(cfg, acts) && i < |acts|
  {
    var s := StateAt(cfg, acts, i);
    c < |s.conns| && !Left(s.conns[c]) &&
    var n := s.conns[c];
    || (acts[i] == LoopSeesDone(c) && n.cancelled)
    || (acts[i] == LoopHandles(c) && n.readers != []
        && (n.readers[|n.readers| - 1] == Delivered(CloseFrame) || n.readers[|n.readers| - 1] == Delivered(Failed)))
  }

  lemma LeavingStep(cfg: Config, s: State, a: Action, c: nat)
    requires ReadOk(cfg, s) && Enabled(s, a) && c < |s.conns| && !Left(s.conns[c])
    requires c < |Next(cfg, s, a).conns| && Left(Next(cfg, s, a).conns[c])
    ensures var n := s.conns[c];
      || (a == LoopSeesDone(c) && n.cancelled)
      || (a == LoopHandles(c) && n.readers != []
          && (n.readers[|n.readers| - 1] == Delivered(CloseFrame) || n.readers[|n.readers| - 1] == Delivered(Failed)))
  {
    assert ConnOk(cfg, s.conns[c]);
    if !By(Loop(c), a) {
      LoopElsewhere(cfg, s, a, c);
    }
  }

  /** In every run a loop has left only in such a step. */
  lemma {:induction false} LoopLeavesForCause(cfg: Config, acts: seq<Action>, c: nat)
    requires Legal(cfg, acts) && c < |After(cfg, acts).conns| && Left(After(cfg, acts).conns[c])
    ensures exists i :: 0 <= i < |acts| && LeavesAt(cfg, acts, i, c)
  {
    var n := |acts| - 1;
    var s := After(cfg, acts[..n]);
    if c >= |s.conns| {
      NewConnIdle(cfg, s, acts[n], c);
    } else if Left(s.conns[c]) {
      LoopLeavesForCause(cfg, acts[..n], c);
      var i :| 0 <= i < n && LeavesAt(cfg, acts[..n], i, c);
      FrontAt(cfg, acts, i);
      assert LeavesAt(cfg, acts, i, c);
    } else {
      ReadOkReachable(cfg, acts[..n]);
      LeavingStep(cfg, s, acts[n], c);
      FrontAt(cfg, acts, n);
      assert LeavesAt(cfg, acts, n, c);
    }
  }

  /** In every run a call handler that waits for its context goes on only after a step that cancelled its
      connection, or a .cancel that found the call. */
  lemma {:induction false} WakesOnlyWhenCancelled(cfg: Config, acts: seq<Action>, t: nat)
    requires Legal(cfg, acts) && Enabled(After(cfg, acts), HandlerWakes(t))
    ensures || (exists i :: 0 <= i < |acts| && CancelsConnAt(cfg, acts, i, After(cfg, acts).tasks[t].conn))
            || (exists i :: 0 <= i < |acts| && FindsCallAt(cfg, acts, i, t))
  {
    CancelledIff(cfg, acts, t);
  }

  // ---------- activeCalls ----------

  lemma {:induction false} InSteps(g: Goroutine, acts: seq<Action>, a: Action)
    requires By(g, a)
    ensures a in acts <==> a in StepsOf(g, acts)
  {
    if acts != [] {
      var n := |acts| - 1;
      InSteps(g, acts[..n], a);
      assert acts == acts[..n] + [acts[n]];
    }
  }

  /** activeCalls as the run's map operations leave it: the first one of a call puts it under its ID, its
      second one and that of a .cancel delete what is under theirs. */
  function MapOf(cfg: Config, acts: seq<Action>): map<string, nat>
    requires Legal(cfg, acts)
    decreases |acts|
  {
    if acts == [] then map[]
    else
      var front, a := acts[..|acts| - 1], acts[|acts| - 1];
      var m := MapOf(cfg, front);
      if !a.Critical? then m
      else match After(cfg, front).tasks[a.t].frame.call
        case None => m
        case Some(Call(id, callMethod)) =>
          if callMethod == ".cancel" || a in front then m - {id} else m[id := a.t]
  }

  lemma MapOperation(cfg: Config, s: State, t: nat)
    requires t < |s.tasks| && s.tasks[t].h.InLock? && TaskOk(cfg, s.tasks[t])
    ensures s.tasks[t].frame.call.Some? && s.tasks[t].frame.msgType == Some("call")
    ensures var Call(id, callMethod) := s.tasks[t].frame.call.value;
      && (callMethod == ".cancel" <==> s.tasks[t].h.doing.CancelCall?)
      && (callMethod != ".cancel" ==> callMethod in cfg.methods)
      && CriticalNext(s, t).active ==
         if callMethod == ".cancel" || s.tasks[t].h.doing.Deregister? then s.active - {id} else s.active[id := t]
  {
    var id := IdOf(s.tasks[t]);
    if id !in s.active {
      assert s.active - {id} == s.active;
    }
  }

  /** In every run activeCalls is what its map operations, read off the frames alone, leave. */
  lemma {:induction false} RegistryIsHistory(cfg: Config, acts: seq<Action>)
    requires Legal(cfg, acts)
    ensures After(cfg, acts).active == MapOf(cfg, acts)
  {
    if acts != [] {
      var front, a := acts[..|acts| - 1], acts[|acts| - 1];
      var s := After(cfg, front);
      RegistryIsHistory(cfg, front);
      Reachable(cfg, front);
      if a.Critical? {
        MapOperation(cfg, s, a.t);
        if !s.tasks[a.t].h.doing.CancelCall? {
          HandlerOrder(cfg, front, a.t);
          SecondOperation(cfg, s.tasks[a.t], a.t, front);
        }
      } else {
        StepTasks(cfg, s, a);
      }
    }
  }

  /** A call is at its second map operation exactly if it has made one before. */
  lemma SecondOperation(cfg: Config, k: Task, t: nat, acts: seq<Action>)
    requires CallsRegistered(cfg, k.frame) && k.h.InLock? && HandlerAt(cfg, k, t, StepsOf(Handler(t), acts))
    ensures k.h.doing.Deregister? <==> Critical(t) in acts
  {
    InSteps(Handler(t), acts, Critical(t));
    if k.h.doing.Deregister? {
      assert StepsOf(Handler(t), acts)[3] == Critical(t);
    }
  }
}
