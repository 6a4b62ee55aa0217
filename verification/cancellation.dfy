/**
  The cancellation channel: any number of concurrent `Cancel` and `CancelWithReason` callers race on
  one `sync.Once` that closes the channel and runs a callback.

  `Step` interleaves the callers; the class at the end is the same object used by one caller at a time.
 */
module Cancellation {
  import opened Options

  /** Where a caller is inside Cancel or CancelWithReason. */
  datatype CallerPc =
    | AtOnce         // about to enter once.Do
    | Closing        // runs the function: about to close C
    | CallingBack    // about to call the callback
    | InCallback     // the callback runs
    | LeavingOnce    // the function returned, Do about to mark itself done
    | AfterOnce      // Do returned; CancelWithReason is about to set Reason
    | Done

  /** Which of the two methods is called; the error given as a reason may be nil, and is then assigned too. */
  datatype Call = PlainCancel | WithReason(err: Option<string>)

  datatype Caller = Caller(pc: CallerPc, call: Call)

  datatype Once = Fresh | Busy(runner: nat) | Finished

  datatype Channel = Channel(
    hasCallback: bool,
    once: Once,
    closes: nat,               // how many times C was closed
    started: nat,              // callback calls begun
    ended: nat,                // callback calls returned
    reason: Option<string>,
    callers: seq<Caller>)

  function NewChannel(hasCallback: bool): Channel {
    Channel(hasCallback, Fresh, 0, 0, 0, None, [])
  }

  /** A receive on C succeeds. */
  predicate Cancelled(ch: Channel) {
    ch.closes > 0
  }

  datatype Step =
    | Arrive(call: Call)   // a goroutine calls Cancel or CancelWithReason
    | Advance(k: nat)      // caller k takes its next step

  predicate InsideOnce(pc: CallerPc) {
    pc.Closing? || pc.CallingBack? || pc.InCallback? || pc.LeavingOnce?
  }

  predicate Enabled(ch: Channel, e: Step) {
    match e
    case Arrive(_) => true
    case Advance(k) =>
      && k < |ch.callers|
      && !ch.callers[k].pc.Done?
      && (ch.callers[k].pc.AtOnce? ==> !ch.once.Busy?)   // a late caller blocks until the first is done
  }

  function Next(ch: Channel, e: Step): Channel
    requires Enabled(ch, e)
  {
    match e
    case Arrive(call) => ch.(callers := ch.callers + [Caller(AtOnce, call)])
    case Advance(k) =>
      var to := (pc: CallerPc) => ch.callers[k := ch.callers[k].(pc := pc)];
      match ch.callers[k].pc
      case AtOnce =>
        if ch.once.Fresh? then ch.(once := Busy(k), callers := to(Closing)) else ch.(callers := to(AfterOnce))
      case Closing => ch.(closes := ch.closes + 1, callers := to(if ch.hasCallback then CallingBack else LeavingOnce))
      case CallingBack => ch.(started := ch.started + 1, callers := to(InCallback))
      case InCallback => ch.(ended := ch.ended + 1, callers := to(LeavingOnce))
      case LeavingOnce => ch.(once := Finished, callers := to(AfterOnce))
      case AfterOnce =>
        ch.(reason := ReasonAfter(ch, ch.callers[k].call), callers := to(Done))
  }

  function ReasonAfter(ch: Channel, call: Call): Option<string> {
    if call.WithReason? then call.err else ch.reason
  }

  // ---------- Invariant ----------

  /** How far the one run of the once function has come. */
  predicate CountsFit(ch: Channel, pc: CallerPc) {
    match pc
    case Closing => ch.closes == 0 && ch.started == 0 && ch.ended == 0
    case CallingBack => ch.closes == 1 && ch.started == 0 && ch.ended == 0 && ch.hasCallback
    case InCallback => ch.closes == 1 && ch.started == 1 && ch.ended == 0 && ch.hasCallback
    case _ => ch.closes == 1 && ch.started == ch.ended == (if ch.hasCallback then 1 else 0)
  }

  ghost predicate Inv(ch: Channel) {
    && (match ch.once
        case Fresh => ch.closes == ch.started == ch.ended == 0
        case Busy(k) => k < |ch.callers| && InsideOnce(ch.callers[k].pc) && CountsFit(ch, ch.callers[k].pc)
        case Finished => CountsFit(ch, AfterOnce))
    && (forall k :: 0 <= k < |ch.callers| ==>
          && (InsideOnce(ch.callers[k].pc) <==> ch.once == Busy(k))
          && (ch.callers[k].pc.AfterOnce? || ch.callers[k].pc.Done? ==> ch.once.Finished?))
    && (ch.reason.Some? ==> exists k :: 0 <= k < |ch.callers| && GaveReason(ch, k))
  }

  predicate GaveReason(ch: Channel, k: nat)
    requires k < |ch.callers|
  {
    ch.callers[k].pc.Done? && ch.callers[k].call == WithReason(ch.reason)
  }

  lemma InvStep(ch: Channel, e: Step)
    requires Inv(ch) && Enabled(ch, e)
    ensures Inv(Next(ch, e))
  {
    var ch' := Next(ch, e);
    if ch.reason.Some? && ch'.reason == ch.reason {
      var k :| 0 <= k < |ch.callers| && GaveReason(ch, k);
      assert GaveReason(ch', k);
    } else if e.Advance? && ch'.reason.Some? {
      assert GaveReason(ch', e.k);
    }
  }

  // ---------- Runs ----------

  predicate Legal(ch: Channel, es: seq<Step>)
    decreases |es|
  {
    es == [] || (Enabled(ch, es[0]) && Legal(Next(ch, es[0]), es[1..]))
  }

  function After(ch: Channel, es: seq<Step>): Channel
    requires Legal(ch, es)
    decreases |es|
  {
    if es == [] then ch else After(Next(ch, es[0]), es[1..])
  }

  lemma {:induction false} RunKeepsInv(ch: Channel, es: seq<Step>)
    requires Inv(ch) && Legal(ch, es)
    ensures Inv(After(ch, es))
    decreases |es|
  {
    if es != [] {
      InvStep(ch, es[0]);
      RunKeepsInv(Next(ch, es[0]), es[1..]);
    }
  }

  /**
    For any number of concurrent callers: the channel is closed at most once, the callback runs at most
    once and only after the close, and whoever has come out of once.Do finds the channel closed and the
    callback returned.  A reason that is set was given by a caller that has returned.
   */
  lemma {:induction false} CancelsOnce(hasCallback: bool, es: seq<Step>)
    requires Legal(NewChannel(hasCallback), es)
    ensures var ch := After(NewChannel(hasCallback), es);
      && ch.closes <= 1
      && ch.ended <= ch.started <= ch.closes
      && (!hasCallback ==> ch.started == 0)
      && (forall k :: 0 <= k < |ch.callers| && (ch.callers[k].pc.AfterOnce? || ch.callers[k].pc.Done?) ==>
            Cancelled(ch) && ch.started == ch.ended == (if hasCallback then 1 else 0))
      && (ch.reason.Some? ==> exists k :: 0 <= k < |ch.callers| && GaveReason(ch, k))
  {
    RunKeepsInv(NewChannel(hasCallback), es);
    CallbackConstant(NewChannel(hasCallback), es);
  }

  lemma {:induction false} CallbackConstant(ch: Channel, es: seq<Step>)
    requires Legal(ch, es)
    ensures After(ch, es).hasCallback == ch.hasCallback
    decreases |es|
  {
    if es != [] {
      CallbackConstant(Next(ch, es[0]), es[1..]);
    }
  }

  /** IsCancelled never goes back to false, whatever the callers do; nor are callers or counts lost. */
  lemma {:induction false} StaysCancelled(ch: Channel, es: seq<Step>)
    requires Legal(ch, es)
    ensures Cancelled(ch) ==> Cancelled(After(ch, es))
    ensures ch.closes <= After(ch, es).closes && ch.started <= After(ch, es).started && ch.ended <= After(ch, es).ended
    ensures |ch.callers| <= |After(ch, es).callers|
    decreases |es|
  {
    if es != [] {
      StaysCancelled(Next(ch, es[0]), es[1..]);
    }
  }

  // ---------- Progress ----------

  /** The caller whose step unblocks caller k: the runner of the once function while there is one. */
  function Unblocker(ch: Channel, k: nat): nat {
    if ch.once.Busy? then ch.once.runner else k
  }

  /** As long as a caller has not returned, some caller can step: no caller waits for ever, given a
      callback that returns. */
  lemma CallersProgress(ch: Channel, k: nat)
    requires Inv(ch) && k < |ch.callers| && !ch.callers[k].pc.Done?
    ensures Enabled(ch, Advance(Unblocker(ch, k)))
  {
  }

  function Rank(pc: CallerPc): nat {
    match pc
    case AtOnce => 6
    case Closing => 5
    case CallingBack => 4
    case InCallback => 3
    case LeavingOnce => 2
    case AfterOnce => 1
    case Done => 0
  }

  function StepsLeft(callers: seq<Caller>): nat {
    if callers == [] then 0 else StepsLeft(callers[..|callers| - 1]) + Rank(callers[|callers| - 1].pc)
  }

  lemma {:induction false} StepsLeftUpdate(callers: seq<Caller>, k: nat, c: Caller)
    requires k < |callers|
    ensures StepsLeft(callers[k := c]) == StepsLeft(callers) - Rank(callers[k].pc) + Rank(c.pc)
  {
    var n := |callers| - 1;
    if k < n {
      StepsLeftUpdate(callers[..n], k, c);
      assert callers[k := c][..n] == callers[..n][k := c];
    } else {
      assert callers[k := c][..n] == callers[..n];
    }
  }

  /** Every step of a caller brings all callers closer to their return. */
  lemma AdvanceDecreases(ch: Channel, k: nat)
    requires Enabled(ch, Advance(k))
    ensures StepsLeft(Next(ch, Advance(k)).callers) < StepsLeft(ch.callers)
  {
    StepsLeftUpdate(ch.callers, k, Next(ch, Advance(k)).callers[k]);
  }

  /** Without new callers, all present ones can run to their return, which leaves the channel cancelled. */
  lemma {:induction false} AllCanReturn(ch: Channel) returns (es: seq<Step>)
    requires Inv(ch)
    ensures Legal(ch, es) && |es| <= StepsLeft(ch.callers)
    ensures var ch' := After(ch, es);
      && |ch'.callers| == |ch.callers|
      && (forall k :: 0 <= k < |ch'.callers| ==> ch'.callers[k].pc.Done?)
      && (ch.callers != [] ==> Cancelled(ch') && ch'.ended == (if ch.hasCallback then 1 else 0))
    decreases StepsLeft(ch.callers)
  {
    if k :| 0 <= k < |ch.callers| && !ch.callers[k].pc.Done? {
      CallersProgress(ch, k);
      var e := Advance(Unblocker(ch, k));
      InvStep(ch, e);
      AdvanceDecreases(ch, e.k);
      var rest := AllCanReturn(Next(ch, e));
      es := [e] + rest;
      assert es[1..] == rest;
    } else {
      es := [];
      if ch.callers != [] {
        assert ch.callers[0].pc.Done?;
      }
    }
  }

  // ---------- The reason ----------

  /** What a call gives as the reason: nothing, if it is a plain Cancel. */
  function Given(call: Call): Option<string> {
    if call.WithReason? then call.err else None
  }

  /** The step assigns Reason. */
  predicate Writes(ch: Channel, e: Step)
    requires Enabled(ch, e)
  {
    e.Advance? && ch.callers[e.k].pc.AfterOnce? && ch.callers[e.k].call.WithReason?
  }

  /** The caller that assigned Reason last in a run, if any did. */
  function LastWriter(ch: Channel, es: seq<Step>): Option<nat>
    requires Legal(ch, es)
    decreases |es|
  {
    if es == [] then None
    else
      var later := LastWriter(Next(ch, es[0]), es[1..]);
      if later.None? && Writes(ch, es[0]) then Some(es[0].k) else later
  }

  /** The caller that closed C in a run, if any did. */
  function Closer(ch: Channel, es: seq<Step>): Option<nat>
    requires Legal(ch, es)
    decreases |es|
  {
    if es == [] then None
    else if es[0].Advance? && ch.callers[es[0].k].pc.Closing? then Some(es[0].k)
    else Closer(Next(ch, es[0]), es[1..])
  }

  lemma {:induction false} CallsKept(ch: Channel, es: seq<Step>, k: nat)
    requires Legal(ch, es) && k < |ch.callers|
    ensures k < |After(ch, es).callers| && After(ch, es).callers[k].call == ch.callers[k].call
    ensures ch.callers[k].pc.Done? ==> After(ch, es).callers[k].pc.Done?
    decreases |es|
  {
    if es != [] {
      CallsKept(Next(ch, es[0]), es[1..], k);
    }
  }

  /** After every run Reason is what its last writer gave, and untouched if nobody wrote. */
  lemma {:induction false} ReasonIsLastWriters(ch: Channel, es: seq<Step>)
    requires Legal(ch, es)
    ensures var end := After(ch, es);
      match LastWriter(ch, es)
      case None => end.reason == ch.reason
      case Some(k) => k < |end.callers| && end.callers[k].pc.Done? && end.callers[k].call == WithReason(end.reason)
    decreases |es|
  {
    if es != [] {
      var next := Next(ch, es[0]);
      ReasonIsLastWriters(next, es[1..]);
      if LastWriter(next, es[1..]).None? && Writes(ch, es[0]) {
        CallsKept(next, es[1..], es[0].k);
      }
    }
  }

  /** How often caller k assigned Reason in a run. */
  function WritesOf(ch: Channel, es: seq<Step>, k: nat): nat
    requires Legal(ch, es)
    decreases |es|
  {
    if es == [] then 0
    else (if Writes(ch, es[0]) && es[0].k == k then 1 else 0) + WritesOf(Next(ch, es[0]), es[1..], k)
  }

  predicate HasWritten(ch: Channel, k: nat) {
    k < |ch.callers| && ch.callers[k].pc.Done? && ch.callers[k].call.WithReason?
  }

  lemma {:induction false} WritesAddUp(ch: Channel, es: seq<Step>, k: nat)
    requires Legal(ch, es)
    ensures WritesOf(ch, es, k) + (if HasWritten(ch, k) then 1 else 0) == if HasWritten(After(ch, es), k) then 1 else 0
    decreases |es|
  {
    if es != [] {
      WritesAddUp(Next(ch, es[0]), es[1..], k);
    }
  }

  /** In every run a CancelWithReason that has returned assigned Reason exactly once, whether or not it closed
      C; one that has not, and a Cancel, never did. */
  lemma {:induction false} WritesOnce(hasCallback: bool, es: seq<Step>, k: nat)
    requires Legal(NewChannel(hasCallback), es)
    ensures WritesOf(NewChannel(hasCallback), es, k) ==
      if HasWritten(After(NewChannel(hasCallback), es), k) then 1 else 0
  {
    WritesAddUp(NewChannel(hasCallback), es, k);
  }

  /** A run closes C exactly if it has a closer. */
  lemma {:induction false} ClosedByCloser(ch: Channel, es: seq<Step>)
    requires Legal(ch, es) && !Cancelled(ch)
    ensures Cancelled(After(ch, es)) <==> Closer(ch, es).Some?
    ensures Closer(ch, es).Some? ==> Closer(ch, es).value < |After(ch, es).callers|
    decreases |es|
  {
    if es != [] {
      var next := Next(ch, es[0]);
      if Cancelled(next) {
        StaysCancelled(next, es[1..]);
      } else {
        ClosedByCloser(next, es[1..]);
      }
    }
  }

  lemma {:induction false} NoWriteBeforeOnceIsDone(ch: Channel, es: seq<Step>)
    requires Inv(ch) && Legal(ch, es) && !After(ch, es).once.Finished?
    ensures LastWriter(ch, es).None? && !ch.once.Finished?
    decreases |es|
  {
    if es != [] {
      InvStep(ch, es[0]);
      NoWriteBeforeOnceIsDone(Next(ch, es[0]), es[1..]);
    }
  }

  /**
    A waiter woken by the close, whenever it reads Reason, reads what the closer gave if and only if
    nobody has written and the closer gave nothing, or the last writer gave the same.  Nobody has written as long as
    the once function, with its callback, is not done.
   */
  lemma {:induction false} ReasonIsClosersIff(hasCallback: bool, es: seq<Step>)
    requires Legal(NewChannel(hasCallback), es) && Cancelled(After(NewChannel(hasCallback), es))
    ensures var ch := After(NewChannel(hasCallback), es);
      var closer, last := Closer(NewChannel(hasCallback), es), LastWriter(NewChannel(hasCallback), es);
      && closer.Some? && closer.value < |ch.callers|
      && (last.Some? ==> last.value < |ch.callers|)
      && (ch.reason == Given(ch.callers[closer.value].call) <==>
            Given(ch.callers[closer.value].call) == if last.Some? then Given(ch.callers[last.value].call) else None)
      && (!ch.once.Finished? ==> last.None?)
  {
    ClosedByCloser(NewChannel(hasCallback), es);
    ReasonIsLastWriters(NewChannel(hasCallback), es);
    if !After(NewChannel(hasCallback), es).once.Finished? {
      NoWriteBeforeOnceIsDone(NewChannel(hasCallback), es);
    }
  }

  /** A waiter woken by the close may find Reason unset although the canceller gave one, and later find
      the reason of a caller that did not close the channel. */
  lemma ReasonIsLateAndLastWriterWins() returns (early: seq<Step>, late: seq<Step>)
    ensures Legal(NewChannel(false), early) && Legal(After(NewChannel(false), early), late)
    ensures var ch := After(NewChannel(false), early);
      && |ch.callers| == 2 && Cancelled(ch) && ch.reason.None?
      && ch.once == Busy(0) && ch.callers[0].call == WithReason(Some("a"))
    ensures var ch := After(After(NewChannel(false), early), late);
      |ch.callers| == 2 && ch.callers[0].pc.Done? && ch.reason == Some("b")
  {
    early := [Arrive(WithReason(Some("a"))), Arrive(WithReason(Some("b"))), Advance(0), Advance(0)];
    var c0 := NewChannel(false);
    var c1 := Next(c0, early[0]);
    assert early[1..] == [Arrive(WithReason(Some("b"))), Advance(0), Advance(0)];
    var c2 := Next(c1, Arrive(WithReason(Some("b"))));
    assert early[1..][1..] == [Advance(0), Advance(0)];
    var c3 := Next(c2, Advance(0));
    assert early[1..][1..][1..] == [Advance(0)];
    var c4 := Next(c3, Advance(0));
    assert early[1..][1..][1..][1..] == [];
    assert After(c0, early) == c4;
    late := [Advance(0), Advance(0), Advance(1), Advance(1)];
    assert late[1..] == [Advance(0), Advance(1), Advance(1)];
    var d1 := Next(c4, Advance(0));
    assert late[1..][1..] == [Advance(1), Advance(1)];
    var d2 := Next(d1, Advance(0));
    assert late[1..][1..][1..] == [Advance(1)];
    var d3 := Next(d2, Advance(1));
    assert late[1..][1..][1..][1..] == [];
    var d4 := Next(d3, Advance(1));
    assert After(c4, late) == d4;
  }

  // ---------- The object, one caller at a time ----------

  /** What one uninterrupted call does to the channel. */
  function Solo(ch: Channel, call: Call): Channel {
    var first := ch.once.Fresh?;
    var calls := if first && ch.hasCallback then 1 else 0;
    ch.(once := if first then Finished else ch.once,
        closes := if first then ch.closes + 1 else ch.closes,
        started := ch.started + calls,
        ended := ch.ended + calls,
        reason := ReasonAfter(ch, call),
        callers := ch.callers + [Caller(Done, call)])
  }

  /** A caller that nobody interrupts does exactly that, step by step. */
  lemma {:induction false} SoloIsARun(ch: Channel, call: Call) returns (es: seq<Step>)
    requires !ch.once.Busy?
    ensures Legal(ch, es) && After(ch, es) == Solo(ch, call)
  {
    var k := |ch.callers|;
    var c1 := Next(ch, Arrive(call));
    var rest := FinishAlone(c1, k);
    es := [Arrive(call)] + rest;
    assert es[1..] == rest;
    assert c1.callers[k := Caller(Done, call)] == ch.callers + [Caller(Done, call)];
  }

  lemma {:induction false} FinishAlone(ch: Channel, k: nat) returns (es: seq<Step>)
    requires k < |ch.callers| && (InsideOnce(ch.callers[k].pc) ==> ch.once.Busy?)
    requires ch.callers[k].pc.AtOnce? ==> !ch.once.Busy?
    ensures Legal(ch, es)
    ensures After(ch, es) == AloneFrom(ch, k)
    decreases Rank(ch.callers[k].pc)
  {
    if ch.callers[k].pc.Done? {
      es := [];
      assert ch.callers[k := ch.callers[k].(pc := Done)] == ch.callers;
    } else {
      var ch' := Next(ch, Advance(k));
      var rest := FinishAlone(ch', k);
      es := [Advance(k)] + rest;
      assert es[1..] == rest;
      assert ch'.callers[k := ch'.callers[k].(pc := Done)] == ch.callers[k := ch.callers[k].(pc := Done)];
    }
  }

  /** The channel after caller k has gone from its present pc to its return, alone. */
  function AloneFrom(ch: Channel, k: nat): Channel
    requires k < |ch.callers|
  {
    var pc := ch.callers[k].pc;
    var wins := InsideOnce(pc) || (pc.AtOnce? && ch.once.Fresh?);
    var closing := wins && (pc.AtOnce? || pc.Closing?);
    var starts := (closing && ch.hasCallback) || pc.CallingBack?;
    var ends := starts || pc.InCallback?;
    ch.(once := if wins then Finished else ch.once,
        closes := if closing then ch.closes + 1 else ch.closes,
        started := if starts then ch.started + 1 else ch.started,
        ended := if ends then ch.ended + 1 else ch.ended,
        reason := if pc.Done? then ch.reason else ReasonAfter(ch, ch.callers[k].call),
        callers := ch.callers[k := ch.callers[k].(pc := Done)])
  }

  class CancellationChannel {
    const hasCallback: bool
    var closed: bool
    var onceDone: bool
    var callbackRuns: nat
    var reason: Option<string>
    ghost var finished: seq<Caller>

    /** The channel of the transition system that the fields stand for, between two calls. */
    ghost function View(): Channel
      reads this
    {
      Channel(hasCallback, if onceDone then Finished else Fresh, if closed then 1 else 0, callbackRuns, callbackRuns,
              reason, finished)
    }

    ghost predicate Valid()
      reads this
    {
      closed == onceDone && Inv(View())
    }

    constructor (hasCallback: bool)
      ensures Valid() && View() == NewChannel(hasCallback)
    {
      this.hasCallback := hasCallback;
      closed, onceDone, callbackRuns, reason, finished := false, false, 0, None, [];
    }

    method Cancel()
      requires Valid()
      modifies this
      ensures Valid() && View() == Solo(old(View()), PlainCancel)
    {
      ghost var before := View();
      DoOnce();
      finished := finished + [Caller(Done, PlainCancel)];
      SoloKeepsInv(before, PlainCancel);
    }

    method CancelWithReason(err: Option<string>)
      requires Valid()
      modifies this
      ensures Valid() && View() == Solo(old(View()), WithReason(err))
    {
      ghost var before := View();
      DoOnce();
      reason := err;
      finished := finished + [Caller(Done, WithReason(err))];
      SoloKeepsInv(before, WithReason(err));
    }

    /** once.Do of the function that closes C and calls back. */
    method DoOnce()
      requires closed == onceDone
      modifies this`closed, this`onceDone, this`callbackRuns
      ensures closed && onceDone
      ensures callbackRuns == old(callbackRuns) + (if !old(onceDone) && hasCallback then 1 else 0)
    {
      if !onceDone {
        closed := true;
        if hasCallback {
          callbackRuns := callbackRuns + 1;
        }
        onceDone := true;
      }
    }

    method IsCancelled() returns (isCancelled: bool)
      requires Valid()
      ensures isCancelled == Cancelled(View())
    {
      isCancelled := true;
      if !closed {
        isCancelled := false;
      }
    }
  }

  lemma SoloKeepsInv(ch: Channel, call: Call)
    requires Inv(ch) && !ch.once.Busy?
    ensures Inv(Solo(ch, call))
  {
    var es := SoloIsARun(ch, call);
    RunKeepsInv(ch, es);
  }
}
