/**
  Program order in the supervisor: what the manager and the watchers see and do, in every run, is what their
  source text allows, in that order, and decides where they are.
 */
module SupervisorOrder {
  import opened Options
  import Cancellation
  import opened Supervisor
  import opened Traces

  // ---------- The watcher ----------

  /** What a watcher reads. */
  datatype Sight = SawKill(killed: bool) | SawChannel(cancelled: bool) | SawPort(available: bool)

  function SightOf(s: State, a: Action, i: nat): seq<Sight>
    requires Enabled(s, a)
  {
    match a
    case WatcherReadsKill(j) => if j == i then [SawKill(s.killed)] else []
    case WatcherReadsChannel(j) => if j == i then [SawChannel(Cancellation.Cancelled(s.incs[i].ch))] else []
    case WatcherProbesPort(j, available) => if j == i then [SawPort(available)] else []
    case _ => []
  }

  /** What the watcher of incarnation i reads in a run. */
  function Sights(s: State, acts: seq<Action>, i: nat): seq<Sight>
    requires Legal(s, acts)
    decreases |acts|
  {
    if acts == [] then [] else SightOf(s, acts[0], i) + Sights(Next(s, acts[0]), acts[1..], i)
  }

  /** Whole turns of the watch loop: no kill, not cancelled, port available. */
  predicate Polls(seen: seq<Sight>)
    decreases |seen|
  {
    || seen == []
    || (Ends(seen, [SawKill(false), SawChannel(false), SawPort(true)]) && Polls(Without(seen, 3)))
  }

  predicate PollsThen(seen: seq<Sight>, tail: seq<Sight>) {
    Ends(seen, tail) && Polls(Without(seen, |tail|))
  }

  /** The loop ended at a closed channel or a missing port, and tail follows. */
  predicate EndedUnkilled(seen: seq<Sight>, tail: seq<Sight>) {
    || PollsThen(seen, [SawKill(false), SawChannel(true)] + tail)
    || PollsThen(seen, [SawKill(false), SawChannel(false), SawPort(false)] + tail)
  }

  predicate Ended(seen: seq<Sight>, tail: seq<Sight>) {
    PollsThen(seen, [SawKill(true)] + tail) || EndedUnkilled(seen, tail)
  }

  predicate WatcherAt(w: WatcherPc, seen: seq<Sight>) {
    match w
    case NotStarted => seen == []
    case LoopKill => Polls(seen)
    case LoopCancelled => PollsThen(seen, [SawKill(false)])
    case LoopPort => PollsThen(seen, [SawKill(false), SawChannel(false)])
    case CheckKill => Ended(seen, [])
    case CheckCancelled => EndedUnkilled(seen, [SawKill(false)])
    case WatcherCancels(_) =>
      PollsThen(seen, [SawKill(false), SawChannel(false), SawPort(false), SawKill(false), SawChannel(false)])
    case WatcherGone => Ended(seen, [SawKill(true)]) || EndedUnkilled(seen, [SawKill(false), SawChannel(true)])
  }

  /** A kill or a close that was seen is still there. */
  predicate Remembers(s: State, i: nat, seen: seq<Sight>) {
    && (SawKill(true) in seen ==> s.killed)
    && (SawChannel(true) in seen ==> i < |s.incs| && Cancellation.Cancelled(s.incs[i].ch))
  }

  predicate WatcherFits(s: State, i: nat, seen: seq<Sight>) {
    Remembers(s, i, seen) && if i < |s.incs| then WatcherAt(s.incs[i].watcher, seen) else seen == []
  }

  lemma PollsMore(seen: seq<Sight>, tail: seq<Sight>, sight: Sight)
    requires PollsThen(seen, tail)
    ensures PollsThen(seen + [sight], tail + [sight])
  {
    EndsMore(seen, tail, sight);
  }

  lemma EndedMore(seen: seq<Sight>, tail: seq<Sight>, sight: Sight)
    ensures EndedUnkilled(seen, tail) ==> EndedUnkilled(seen + [sight], tail + [sight])
    ensures Ended(seen, tail) ==> Ended(seen + [sight], tail + [sight])
  {
    var killed, closed, gone := [SawKill(true)], [SawKill(false), SawChannel(true)],
      [SawKill(false), SawChannel(false), SawPort(false)];
    if PollsThen(seen, killed + tail) {
      PollsMore(seen, killed + tail, sight);
      assert killed + (tail + [sight]) == killed + tail + [sight];
    }
    if PollsThen(seen, closed + tail) {
      PollsMore(seen, closed + tail, sight);
      assert closed + (tail + [sight]) == closed + tail + [sight];
    }
    if PollsThen(seen, gone + tail) {
      PollsMore(seen, gone + tail, sight);
      assert gone + (tail + [sight]) == gone + tail + [sight];
    }
  }

  /** The sight that ends the loop. */
  lemma LoopEnds(seen: seq<Sight>, sight: Sight)
    requires || (sight == SawKill(true) && Polls(seen))
             || (sight == SawChannel(true) && PollsThen(seen, [SawKill(false)]))
             || (sight == SawPort(false) && PollsThen(seen, [SawKill(false), SawChannel(false)]))
    ensures Ended(seen + [sight], [])
  {
    match sight
    case SawKill(_) =>
      assert Without(seen + [sight], 1) == seen && [SawKill(true)] + [] == [sight];
    case SawChannel(_) =>
      PollsMore(seen, [SawKill(false)], sight);
      assert [SawKill(false), SawChannel(true)] + [] == [SawKill(false)] + [sight];
    case SawPort(_) =>
      PollsMore(seen, [SawKill(false), SawChannel(false)], sight);
      assert [SawKill(false), SawChannel(false), SawPort(false)] + [] == [SawKill(false), SawChannel(false)] + [sight];
  }

  lemma LastIn(seen: seq<Sight>, tail: seq<Sight>, sight: Sight)
    requires Ends(seen, tail) && sight in tail
    ensures sight in seen
  {
    var i :| 0 <= i < |tail| && tail[i] == sight;
    assert seen[|seen| - |tail|..][i] == sight;
  }

  lemma KillStep(s: State, i: nat, seen: seq<Sight>)
    requires i < |s.incs| && WatcherFits(s, i, seen)
    requires s.incs[i].watcher.LoopKill? || s.incs[i].watcher.CheckKill?
    ensures WatcherAt(IncNext(s.incs[i], s.killed, WatcherReadsKill(i)).watcher, seen + [SawKill(s.killed)])
  {
    var sight := SawKill(s.killed);
    if s.incs[i].watcher.LoopKill? {
      if s.killed {
        LoopEnds(seen, sight);
      } else {
        assert Without(seen + [sight], 1) == seen;
      }
    } else {
      EndedMore(seen, [], sight);
      assert [] + [sight] == [sight];
      if !s.killed && PollsThen(seen, [SawKill(true)] + []) {
        LastIn(seen, [SawKill(true)] + [], SawKill(true));
      }
    }
  }

  lemma ChannelStep(s: State, i: nat, seen: seq<Sight>)
    requires i < |s.incs| && WatcherFits(s, i, seen)
    requires s.incs[i].watcher.LoopCancelled? || s.incs[i].watcher.CheckCancelled?
    ensures WatcherAt(IncNext(s.incs[i], s.killed, WatcherReadsChannel(i)).watcher,
                      seen + [SawChannel(Cancellation.Cancelled(s.incs[i].ch))])
  {
    var sight := SawChannel(Cancellation.Cancelled(s.incs[i].ch));
    if s.incs[i].watcher.LoopCancelled? {
      if sight.cancelled {
        LoopEnds(seen, sight);
      } else {
        PollsMore(seen, [SawKill(false)], sight);
      }
    } else {
      EndedMore(seen, [SawKill(false)], sight);
      assert [SawKill(false)] + [sight] == [SawKill(false), sight];
      if !sight.cancelled {
        CheckCancels(s, i, seen);
      }
    }
  }

  /** A watcher that finds the channel open after its loop had left the loop because of the port. */
  lemma CheckCancels(s: State, i: nat, seen: seq<Sight>)
    requires i < |s.incs| && Remembers(s, i, seen) && !Cancellation.Cancelled(s.incs[i].ch)
    requires EndedUnkilled(seen, [SawKill(false)])
    ensures PollsThen(seen + [SawChannel(false)],
                      [SawKill(false), SawChannel(false), SawPort(false), SawKill(false), SawChannel(false)])
  {
    var closed := [SawKill(false), SawChannel(true)] + [SawKill(false)];
    var gone := [SawKill(false), SawChannel(false), SawPort(false)] + [SawKill(false)];
    if PollsThen(seen, closed) {
      LastIn(seen, closed, SawChannel(true));
    }
    PollsMore(seen, gone, SawChannel(false));
    assert gone + [SawChannel(false)] ==
           [SawKill(false), SawChannel(false), SawPort(false), SawKill(false), SawChannel(false)];
  }

  lemma PortStep(inc: Incarnation, i: nat, killed: bool, available: bool, seen: seq<Sight>)
    requires inc.watcher.LoopPort? && WatcherAt(inc.watcher, seen)
    ensures WatcherAt(IncNext(inc, killed, WatcherProbesPort(i, available)).watcher, seen + [SawPort(available)])
  {
    if available {
      EndsMore(seen, [SawKill(false), SawChannel(false)], SawPort(true));
    } else {
      LoopEnds(seen, SawPort(false));
    }
  }

  /** A step that the watcher of i does not take leaves it where it is, or starts it. */
  lemma OtherStep(s: State, a: Action, i: nat)
    requires Enabled(s, a) && i < |s.incs| && SightOf(s, a, i) == []
    ensures i < |Next(s, a).incs|
    ensures var w, w' := s.incs[i].watcher, Next(s, a).incs[i].watcher;
      w' == w || (a.SpawnWatcher? && i == |s.incs| - 1 && w'.LoopKill?)
  {
  }

  lemma WatcherElsewhere(s: State, a: Action, i: nat, seen: seq<Sight>)
    requires Enabled(s, a) && PhaseOk(s.manager, s.incs) && WatcherFits(s, i, seen) && SightOf(s, a, i) == []
    ensures WatcherFits(Next(s, a), i, seen)
  {
    if i < |s.incs| {
      OtherStep(s, a, i);
      ClosesGrow(s, a, i);
    }
  }

  lemma ClosesGrow(s: State, a: Action, i: nat)
    requires Enabled(s, a) && i < |s.incs|
    ensures i < |Next(s, a).incs|
    ensures Cancellation.Cancelled(s.incs[i].ch) ==> Cancellation.Cancelled(Next(s, a).incs[i].ch)
  {
  }

  lemma WatcherStep(s: State, a: Action, i: nat, seen: seq<Sight>)
    requires Enabled(s, a) && Inv(s) && WatcherFits(s, i, seen)
    ensures WatcherFits(Next(s, a), i, seen + SightOf(s, a, i))
  {
    if SightOf(s, a, i) == [] {
      WatcherElsewhere(s, a, i, seen);
      assert seen + [] == seen;
    } else {
      match a
      case WatcherReadsKill(_) => KillStep(s, i, seen);
      case WatcherReadsChannel(_) => ChannelStep(s, i, seen);
      case WatcherProbesPort(_, available) => PortStep(s.incs[i], i, s.killed, available, seen);
    }
  }

  lemma {:induction false} SightsJoin(s: State, acts: seq<Action>, i: nat, seen: seq<Sight>)
    requires acts != [] && Legal(s, acts)
    ensures seen + Sights(s, acts, i) == seen + SightOf(s, acts[0], i) + Sights(Next(s, acts[0]), acts[1..], i)
  {
  }

  lemma {:induction false} WatcherRun(s: State, acts: seq<Action>, i: nat, seen: seq<Sight>, all: seq<Sight>)
    requires Inv(s) && Legal(s, acts) && WatcherFits(s, i, seen) && all == seen + Sights(s, acts, i)
    ensures WatcherFits(After(s, acts), i, all)
    decreases |acts|
  {
    if acts == [] {
      assert all == seen;
    } else {
      WatcherStep(s, acts[0], i, seen);
      InvStep(s, acts[0]);
      SightsJoin(s, acts, i, seen);
      WatcherRun(Next(s, acts[0]), acts[1..], i, seen + SightOf(s, acts[0], i), all);
    }
  }

  /**
    In every run a watcher polls as long as it sees no kill, an open channel and an available port; it calls
    CancelWithReason exactly after it saw, in this order, the port gone, no kill and the channel open.
   */
  lemma {:induction false} WatcherOrder(acts: seq<Action>, i: nat)
    requires Legal(INIT, acts) && i < |After(INIT, acts).incs|
    ensures WatcherAt(After(INIT, acts).incs[i].watcher, Sights(INIT, acts, i))
  {
    WatcherRun(INIT, acts, i, [], Sights(INIT, acts, i));
  }

  /** The result of the last probe of incarnation i's watcher in a run. */
  function LastProbe(acts: seq<Action>, i: nat): Option<bool> {
    if acts == [] then None
    else
      var later := LastProbe(acts[1..], i);
      if later.None? && acts[0].WatcherProbesPort? && acts[0].i == i then Some(acts[0].available) else later
  }

  function LastPort(seen: seq<Sight>): Option<bool> {
    if seen == [] then None
    else
      var later := LastPort(seen[1..]);
      if later.None? && seen[0].SawPort? then Some(seen[0].available) else later
  }

  lemma {:induction false} LastPortIsLastProbe(s: State, acts: seq<Action>, i: nat)
    requires Legal(s, acts)
    ensures LastPort(Sights(s, acts, i)) == LastProbe(acts, i)
    decreases |acts|
  {
    if acts != [] {
      var rest := Sights(Next(s, acts[0]), acts[1..], i);
      LastPortIsLastProbe(Next(s, acts[0]), acts[1..], i);
      if SightOf(s, acts[0], i) == [] {
        assert [] + rest == rest;
      } else {
        assert (SightOf(s, acts[0], i) + rest)[1..] == rest;
      }
    }
  }

  lemma {:induction false} LastPortJoin(early: seq<Sight>, late: seq<Sight>)
    ensures LastPort(early + late) == if LastPort(late).Some? then LastPort(late) else LastPort(early)
  {
    if early == [] {
      assert early + late == late;
    } else {
      LastPortJoin(early[1..], late);
      assert (early + late)[1..] == early[1..] + late;
    }
  }

  lemma LastPortOfTail(seen: seq<Sight>, tail: seq<Sight>)
    requires Ends(seen, tail)
    ensures LastPort(seen) == if LastPort(tail).Some? then LastPort(tail) else LastPort(Without(seen, |tail|))
  {
    LastPortJoin(Without(seen, |tail|), tail);
    assert seen == Without(seen, |tail|) + tail;
  }

  lemma {:induction false} PollsSawPort(seen: seq<Sight>)
    requires Polls(seen)
    ensures LastPort(seen) != Some(false)
  {
    if seen != [] {
      LastPortOfTail(seen, [SawKill(false), SawChannel(false), SawPort(true)]);
      ThreeSights(SawKill(false), SawChannel(false), SawPort(true));
    }
  }

  lemma ThreeSights(a: Sight, b: Sight, c: Sight)
    ensures LastPort([a, b, c]) ==
      if c.SawPort? then Some(c.available) else if b.SawPort? then Some(b.available)
      else if a.SawPort? then Some(a.available) else None
  {
    assert [c][1..] == [] && LastPort([c]) == if c.SawPort? then Some(c.available) else None;
    assert [b, c][1..] == [c];
    assert LastPort([b, c]) == if c.SawPort? then Some(c.available)
                               else if b.SawPort? then Some(b.available) else None;
    assert [a, b, c][1..] == [b, c];
  }

  /** In every run a watcher that calls CancelWithReason has probed, and its last probe found the port gone. */
  lemma {:induction false} CancelsAfterFailedProbe(acts: seq<Action>, i: nat)
    requires Legal(INIT, acts) && i < |After(INIT, acts).incs|
    requires After(INIT, acts).incs[i].watcher.WatcherCancels?
    ensures LastProbe(acts, i) == Some(false)
  {
    WatcherOrder(acts, i);
    LastPortIsLastProbe(INIT, acts, i);
    var tail := [SawKill(false), SawChannel(false), SawPort(false), SawKill(false), SawChannel(false)];
    LastPortOfTail(Sights(INIT, acts, i), tail);
    assert tail[1..] == [SawChannel(false), SawPort(false), SawKill(false), SawChannel(false)];
    ThreeSights(SawPort(false), SawKill(false), SawChannel(false));
    assert tail[1..][1..] == [SawPort(false), SawKill(false), SawChannel(false)];
  }

  /** A watcher in its loop has found the port available so far. */
  lemma InLoopPort(w: WatcherPc, seen: seq<Sight>)
    requires WatcherAt(w, seen) && (w.NotStarted? || w.LoopKill? || w.LoopCancelled? || w.LoopPort?)
    ensures LastPort(seen) != Some(false)
  {
    match w
    case NotStarted =>
    case LoopKill => PollsSawPort(seen);
    case LoopCancelled =>
      PollsSawPort(Without(seen, 1));
      LastPortOfTail(seen, [SawKill(false)]);
      assert [SawKill(false)][1..] == [];
    case LoopPort =>
      PollsSawPort(Without(seen, 2));
      LastPortOfTail(seen, [SawKill(false), SawChannel(false)]);
      assert [SawKill(false), SawChannel(false)][1..] == [SawChannel(false)] && [SawChannel(false)][1..] == [];
  }

  /** Without a kill and with an open channel, a watcher whose last probe found the port gone is reading the
      kill signal, then the channel, and then calls CancelWithReason. */
  lemma {:induction false} FailedProbeLeadsToCancel(acts: seq<Action>, i: nat)
    requires Legal(INIT, acts) && i < |After(INIT, acts).incs| && LastProbe(acts, i) == Some(false)
    requires !After(INIT, acts).killed && !Cancellation.Cancelled(After(INIT, acts).incs[i].ch)
    ensures var w, seen := After(INIT, acts).incs[i].watcher, Sights(INIT, acts, i);
      || (w.CheckKill? && Ends(seen, [SawPort(false)]))
      || (w.CheckCancelled? && Ends(seen, [SawPort(false), SawKill(false)]))
      || (w.WatcherCancels? && Ends(seen, [SawPort(false), SawKill(false), SawChannel(false)]))
  {
    var s, seen := After(INIT, acts), Sights(INIT, acts, i);
    WatcherRun(INIT, acts, i, [], seen);
    LastPortIsLastProbe(INIT, acts, i);
    var w := s.incs[i].watcher;
    if w.NotStarted? || w.LoopKill? || w.LoopCancelled? || w.LoopPort? {
      InLoopPort(w, seen);
    } else {
      UnseenAt(w, seen);
    }
  }

  /** A watcher that has seen neither a kill nor a close has left its loop only because of the port. */
  lemma UnseenAt(w: WatcherPc, seen: seq<Sight>)
    requires WatcherAt(w, seen) && SawKill(true) !in seen && SawChannel(true) !in seen
    ensures !w.WatcherGone?
    ensures w.CheckKill? ==> Ends(seen, [SawPort(false)])
    ensures w.CheckCancelled? ==> Ends(seen, [SawPort(false), SawKill(false)])
    ensures w.WatcherCancels? ==> Ends(seen, [SawPort(false), SawKill(false), SawChannel(false)])
  {
    match w
    case CheckKill => EndedByPort(seen, []);
    case CheckCancelled =>
      EndedByPort(seen, [SawKill(false)]);
      assert [SawPort(false)] + [SawKill(false)] == [SawPort(false), SawKill(false)];
    case WatcherCancels(_) =>
      var early, late := [SawKill(false), SawChannel(false)], [SawPort(false), SawKill(false), SawChannel(false)];
      EndsSuffix(seen, early, late);
      assert early + late ==
             [SawKill(false), SawChannel(false), SawPort(false), SawKill(false), SawChannel(false)];
    case WatcherGone =>
      GoneSaw(seen);
    case _ =>
  }

  /** A watcher that left without cancelling had seen a kill or a close. */
  lemma GoneSaw(seen: seq<Sight>)
    requires WatcherAt(WatcherGone, seen)
    ensures SawKill(true) in seen || SawChannel(true) in seen
  {
    EndedEnds(seen, [SawKill(true)]);
    EndedEnds(seen, [SawKill(false), SawChannel(true)]);
    EndsLast(seen, [SawKill(true)]);
    EndsLast(seen, [SawKill(false), SawChannel(true)]);
  }

  lemma EndedEnds(seen: seq<Sight>, tail: seq<Sight>)
    ensures Ended(seen, tail) ==> Ends(seen, tail)
  {
    EndsSuffix(seen, [SawKill(true)], tail);
    EndsSuffix(seen, [SawKill(false), SawChannel(true)], tail);
    EndsSuffix(seen, [SawKill(false), SawChannel(false), SawPort(false)], tail);
  }

  lemma EndedByPort(seen: seq<Sight>, tail: seq<Sight>)
    requires Ended(seen, tail) && SawKill(true) !in seen && SawChannel(true) !in seen
    ensures Ends(seen, [SawPort(false)] + tail)
  {
    var killed, closed := [SawKill(true)] + tail, [SawKill(false), SawChannel(true)] + tail;
    var gone := [SawKill(false), SawChannel(false), SawPort(false)] + tail;
    assert killed[0] == SawKill(true) && closed[1] == SawChannel(true);
    if PollsThen(seen, killed) {
      LastIn(seen, killed, SawKill(true));
    } else if PollsThen(seen, closed) {
      LastIn(seen, closed, SawChannel(true));
    } else {
      EndsSuffix(seen, [SawKill(false), SawChannel(false)], [SawPort(false)] + tail);
      assert [SawKill(false), SawChannel(false)] + ([SawPort(false)] + tail) == gone;
    }
  }

  // ---------- The manager ----------

  /** What the manager reads and does. */
  datatype Move =
    | ReadKill(killed: bool)
    | Probed(available: bool)
    | Called(ok: bool)         // Execute, up to the start of its goroutine or its failure
    | StoredNil
    | Returned(ok: bool)
    | Spawned
    | Woke(closed: bool)       // the latest channel, when it went on

  function MoveOf(s: State, a: Action): seq<Move>
    requires Enabled(s, a)
  {
    match a
    case ManagerReadsKill => [ReadKill(s.killed)]
    case ManagerProbesPort(available) => [Probed(available)]
    case Execute(ok) => [Called(ok)]
    case ManagerStoresNil => [StoredNil]
    case ManagerReturns => [Returned(s.incs[|s.incs| - 1].err.None?)]
    case SpawnWatcher => [Spawned]
    case ManagerWakes => [Woke(Cancellation.Cancelled(s.incs[|s.incs| - 1].ch))]
    case _ => []
  }

  function Moves(s: State, acts: seq<Action>): seq<Move>
    requires Legal(s, acts)
    decreases |acts|
  {
    if acts == [] then [] else MoveOf(s, acts[0]) + Moves(Next(s, acts[0]), acts[1..])
  }

  /** Whole turns of RunFRPc: the manager is at its loop head. */
  predicate AtHead(moves: seq<Move>)
    decreases |moves|
  {
    || moves == []
    || (Ends(moves, [Called(true), StoredNil, Returned(true), Spawned, Woke(true)]) && PortFound(Without(moves, 5)))
  }

  /** It is about to read the kill signal in its port wait. */
  predicate AtPort(moves: seq<Move>)
    decreases |moves|
  {
    || (Ends(moves, [ReadKill(false)]) && AtHead(Without(moves, 1)))
    || (Ends(moves, [ReadKill(false), Probed(false)]) && AtPort(Without(moves, 2)))
  }

  /** The port wait is over: it saw a kill, or the port available. */
  predicate PortFound(moves: seq<Move>)
    decreases |moves|
  {
    || (Ends(moves, [ReadKill(true)]) && AtPort(Without(moves, 1)))
    || (Ends(moves, [ReadKill(false), Probed(true)]) && AtPort(Without(moves, 2)))
  }

  predicate FoundThen(moves: seq<Move>, tail: seq<Move>) {
    Ends(moves, tail) && PortFound(Without(moves, |tail|))
  }

  predicate ManagerAt(manager: ManagerPc, moves: seq<Move>) {
    match manager
    case LoopHead => AtHead(moves)
    case PortKill => AtPort(moves)
    case PortProbe => Ends(moves, [ReadKill(false)]) && AtPort(Without(moves, 1))
    case Executing => PortFound(moves)
    case Storing => FoundThen(moves, [Called(true)])
    case Returning => FoundThen(moves, [Called(true), StoredNil])
    case Spawning => FoundThen(moves, [Called(true), StoredNil, Returned(true)])
    case Waiting => FoundThen(moves, [Called(true), StoredNil, Returned(true), Spawned])
    case Exited => Ends(moves, [ReadKill(true)]) && AtHead(Without(moves, 1))
    case Panicked => FoundThen(moves, [Called(false)]) || FoundThen(moves, [Called(true), StoredNil, Returned(false)])
  }

  lemma FoundMore(moves: seq<Move>, tail: seq<Move>, move: Move)
    requires FoundThen(moves, tail)
    ensures FoundThen(moves + [move], tail + [move])
  {
    EndsMore(moves, tail, move);
  }

  /** What a move leads to, from each place where there is a choice. */
  lemma HeadMove(moves: seq<Move>, killed: bool)
    requires AtHead(moves)
    ensures ManagerAt(if killed then Exited else PortKill, moves + [ReadKill(killed)])
  {
    assert Without(moves + [ReadKill(killed)], 1) == moves;
  }

  lemma PortMove(moves: seq<Move>, killed: bool)
    requires AtPort(moves)
    ensures ManagerAt(if killed then Executing else PortProbe, moves + [ReadKill(killed)])
  {
    assert Without(moves + [ReadKill(killed)], 1) == moves;
  }

  lemma ProbeMove(moves: seq<Move>, available: bool)
    requires ManagerAt(PortProbe, moves)
    ensures ManagerAt(if available then Executing else PortKill, moves + [Probed(available)])
  {
    EndsMore(moves, [ReadKill(false)], Probed(available));
  }

  lemma CallMove(moves: seq<Move>, ok: bool)
    requires PortFound(moves)
    ensures ManagerAt(if ok then Storing else Panicked, moves + [Called(ok)])
  {
    assert Without(moves + [Called(ok)], 1) == moves;
  }

  lemma ReturnMove(moves: seq<Move>, ok: bool)
    requires FoundThen(moves, [Called(true), StoredNil])
    ensures ManagerAt(if ok then Spawning else Panicked, moves + [Returned(ok)])
  {
    FoundMore(moves, [Called(true), StoredNil], Returned(ok));
  }

  lemma WakeMove(moves: seq<Move>)
    requires FoundThen(moves, [Called(true), StoredNil, Returned(true), Spawned])
    ensures ManagerAt(LoopHead, moves + [Woke(true)])
  {
    FoundMore(moves, [Called(true), StoredNil, Returned(true), Spawned], Woke(true));
  }

  lemma WaitMoves(s: State, a: Action, moves: seq<Move>)
    requires Enabled(s, a) && (a.ManagerReadsKill? || a.ManagerProbesPort?) && ManagerAt(s.manager, moves)
    ensures ManagerAt(Next(s, a).manager, moves + MoveOf(s, a))
  {
    if a.ManagerProbesPort? {
      ProbeMove(moves, a.available);
    } else if s.manager.LoopHead? {
      HeadMove(moves, s.killed);
    } else {
      PortMove(moves, s.killed);
    }
  }

  lemma ExecuteMoves(s: State, a: Action, moves: seq<Move>)
    requires Enabled(s, a) && (a.Execute? || a.ManagerStoresNil? || a.ManagerReturns?) && ManagerAt(s.manager, moves)
    ensures ManagerAt(Next(s, a).manager, moves + MoveOf(s, a))
  {
    match a
    case Execute(ok) => CallMove(moves, ok);
    case ManagerStoresNil => FoundMore(moves, [Called(true)], StoredNil);
    case ManagerReturns => ReturnMove(moves, s.incs[|s.incs| - 1].err.None?);
  }

  lemma WatchMoves(s: State, a: Action, moves: seq<Move>)
    requires Enabled(s, a) && (a.SpawnWatcher? || a.ManagerWakes?) && ManagerAt(s.manager, moves)
    ensures ManagerAt(Next(s, a).manager, moves + MoveOf(s, a))
  {
    if a.SpawnWatcher? {
      FoundMore(moves, [Called(true), StoredNil, Returned(true)], Spawned);
    } else {
      WakeMove(moves);
    }
  }

  predicate ManagerFits(s: State, moves: seq<Move>) {
    ManagerAt(s.manager, moves) && (ReadKill(true) in moves ==> s.killed)
  }

  lemma ManagerStep(s: State, a: Action, moves: seq<Move>)
    requires Enabled(s, a) && ManagerFits(s, moves)
    ensures ManagerFits(Next(s, a), moves + MoveOf(s, a))
  {
    if MoveOf(s, a) == [] {
      assert moves + [] == moves;
    } else if a.ManagerReadsKill? || a.ManagerProbesPort? {
      WaitMoves(s, a, moves);
    } else if a.SpawnWatcher? || a.ManagerWakes? {
      WatchMoves(s, a, moves);
    } else {
      ExecuteMoves(s, a, moves);
    }
  }

  lemma {:induction false} MovesJoin(s: State, acts: seq<Action>, moves: seq<Move>)
    requires acts != [] && Legal(s, acts)
    ensures moves + Moves(s, acts) == moves + MoveOf(s, acts[0]) + Moves(Next(s, acts[0]), acts[1..])
  {
  }

  lemma {:induction false} ManagerRun(s: State, acts: seq<Action>, moves: seq<Move>, all: seq<Move>)
    requires Legal(s, acts) && ManagerFits(s, moves) && all == moves + Moves(s, acts)
    ensures ManagerFits(After(s, acts), all)
    decreases |acts|
  {
    if acts == [] {
      assert all == moves;
    } else {
      ManagerStep(s, acts[0], moves);
      MovesJoin(s, acts, moves);
      ManagerRun(Next(s, acts[0]), acts[1..], moves + MoveOf(s, acts[0]), all);
    }
  }

  /** In every run the manager does what RunFRPc says, in that order, and what it saw decides where it is. */
  lemma {:induction false} ManagerOrder(acts: seq<Action>)
    requires Legal(INIT, acts)
    ensures ManagerAt(After(INIT, acts).manager, Moves(INIT, acts))
  {
    ManagerRun(INIT, acts, [], Moves(INIT, acts));
  }

  /** The manager's last action in a run. */
  function LastMove(acts: seq<Action>): Option<Action> {
    if acts == [] then None
    else
      var later := LastMove(acts[1..]);
      if later.None? && !IsIncAction(acts[0]) && acts[0] != Kill then Some(acts[0]) else later
  }

  lemma {:induction false} LastOfMoves(s: State, acts: seq<Action>)
    requires Legal(s, acts)
    ensures LastMove(acts).None? <==> Moves(s, acts) == []
    ensures Moves(s, acts) != [] && Moves(s, acts)[|Moves(s, acts)| - 1].Probed? ==>
      LastMove(acts) == Some(ManagerProbesPort(Moves(s, acts)[|Moves(s, acts)| - 1].available))
    decreases |acts|
  {
    if acts != [] {
      LastOfMoves(Next(s, acts[0]), acts[1..]);
    }
  }

  /** In every run a manager without a kill calls Execute only right after it found the port available. */
  lemma {:induction false} ExecutesOnlyWithPort(acts: seq<Action>)
    requires Legal(INIT, acts) && After(INIT, acts).manager.Executing? && !After(INIT, acts).killed
    ensures LastMove(acts) == Some(ManagerProbesPort(true))
  {
    var moves := Moves(INIT, acts);
    ManagerRun(INIT, acts, [], moves);
    LastOfMoves(INIT, acts);
    EndsLast(moves, [ReadKill(true)]);
    EndsLast(moves, [ReadKill(false), Probed(true)]);
  }

  lemma {:induction false} KilledIff(s: State, acts: seq<Action>)
    requires Legal(s, acts)
    ensures After(s, acts).killed <==> s.killed || Kill in acts
    decreases |acts|
  {
    if acts != [] {
      KilledIff(Next(s, acts[0]), acts[1..]);
    }
  }

  /** And it exits only after a kill. */
  lemma {:induction false} ExitsOnlyKilled(acts: seq<Action>)
    requires Legal(INIT, acts)
    ensures After(INIT, acts).killed <==> Kill in acts
    ensures After(INIT, acts).manager.Exited? ==> Kill in acts
  {
    var moves := Moves(INIT, acts);
    KilledIff(INIT, acts);
    ManagerRun(INIT, acts, [], moves);
    EndsLast(moves, [ReadKill(true)]);
  }
}
