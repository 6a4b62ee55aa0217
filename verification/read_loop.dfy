/** The read loop of a connection: its reader goroutines, and which frames become tasks. */
module ReadLoop {
  import opened CallProtocol
  import opened CallInvariants

  // ---------- What was read and what was handled ----------

  function ReadBy(r: Reader): seq<ReadResult> {
    match r
    case Reading => []
    case Holding(res) => [res]
    case Delivered(res) => [res]
  }

  /** The results that came off the socket, in the order they were read. */
  function ReadOf(readers: seq<Reader>): seq<ReadResult> {
    if readers == [] then []
    else
      ReadOf(readers[..|readers| - 1]) + ReadBy(readers[|readers| - 1])
  }

  /** The results that the loop received from its readers. */
  function ReceivedOf(readers: seq<Reader>): seq<ReadResult> {
    if readers == [] then []
    else
      var last := readers[|readers| - 1];
      ReceivedOf(readers[..|readers| - 1]) + (if last.Delivered? then [last.given] else [])
  }

  /** The received results, but for one the loop has in its hands. */
  function HandledOf(n: Conn): seq<ReadResult> {
    if n.loop.Got? && n.readers != [] then ReceivedOf(n.readers[..|n.readers| - 1]) else ReceivedOf(n.readers)
  }

  /** The frames among some results whose type can be decoded. */
  function Decodable(cfg: Config, results: seq<ReadResult>): seq<Frame> {
    if results == [] then []
    else
      var last := results[|results| - 1];
      Decodable(cfg, results[..|results| - 1]) +
      (if last.Data? && cfg.decodesIntoPointer && last.frame.msgType.Some? then [last.frame] else [])
  }

  function FramesOf(ds: seq<Dispatch>): seq<Frame> {
    if ds == [] then [] else FramesOf(ds[..|ds| - 1]) + [ds[|ds| - 1].frame]
  }

  lemma DecodableExtend(cfg: Config, results: seq<ReadResult>, res: ReadResult)
    ensures Decodable(cfg, results + [res]) ==
      Decodable(cfg, results) + (if res.Data? && TypeOf(cfg, res.frame).Some? then [res.frame] else [])
  {
    assert (results + [res])[..|results|] == results;
  }

  // ---------- The discipline of one connection ----------

  predicate Settled(r: Reader) {
    r.Delivered? && r.given.Data?
  }

  /** Only the latest reader can still have something to do; the loop's pc says what. */
  ghost predicate Disciplined(n: Conn) {
    && (forall i :: 0 <= i < |n.readers| - 1 ==> Settled(n.readers[i]))
    && match n.loop
       case Idle => n.readers == [] || Settled(n.readers[|n.readers| - 1])
       case Selecting(k) => k + 1 == |n.readers| && !n.readers[k].Delivered?
       case Got(res) => n.readers != [] && n.readers[|n.readers| - 1] == Delivered(res)
       case _ => n.readers != [] && !Settled(n.readers[|n.readers| - 1])
  }

  ghost predicate ConnOk(cfg: Config, n: Conn) {
    Disciplined(n) && FramesOf(n.dispatched) == Decodable(cfg, HandledOf(n))
  }

  lemma ReceivedExtend(readers: seq<Reader>, r: Reader)
    ensures ReceivedOf(readers + [r]) == ReceivedOf(readers) + (if r.Delivered? then [r.given] else [])
  {
    assert (readers + [r])[..|readers|] == readers;
  }

  lemma FramesExtend(ds: seq<Dispatch>, d: Dispatch)
    ensures FramesOf(ds + [d]) == FramesOf(ds) + [d.frame]
  {
    assert (ds + [d])[..|ds|] == ds;
  }

  /** Replacing the latest reader. */
  lemma ReceivedLast(readers: seq<Reader>, r: Reader)
    requires readers != []
    ensures var n := |readers| - 1;
      && readers[n := r] == readers[..n] + [r]
      && ReceivedOf(readers[n := r]) == ReceivedOf(readers[..n]) + (if r.Delivered? then [r.given] else [])
      && ReceivedOf(readers) == ReceivedOf(readers[..n]) + (if readers[n].Delivered? then [readers[n].given] else [])
  {
    var n := |readers| - 1;
    assert readers[n := r] == readers[..n] + [r];
    assert readers == readers[..n] + [readers[n]];
    ReceivedExtend(readers[..n], r);
  }

  lemma HandledStart(n: Conn)
    requires n.loop.Idle?
    ensures HandledOf(n.(loop := Selecting(|n.readers|), readers := n.readers + [Reading])) == HandledOf(n)
  {
    ReceivedExtend(n.readers, Reading);
    assert ReceivedOf(n.readers) + [] == ReceivedOf(n.readers);
  }

  lemma HandledReceive(n: Conn)
    requires Disciplined(n) && n.loop.Selecting? && n.loop.reader < |n.readers| && n.readers[n.loop.reader].Holding?
    ensures var res := n.readers[n.loop.reader].held;
      HandledOf(n.(loop := Got(res), readers := n.readers[n.loop.reader := Delivered(res)])) == HandledOf(n)
  {
    var last := |n.readers| - 1;
    var r := Delivered(n.readers[last].held);
    ReceivedLast(n.readers, r);
    assert HandledOf(n) == ReceivedOf(n.readers);
    assert n.readers[last := r][..last] == n.readers[..last];
  }

  lemma HandledGet(n: Conn, k: nat, res: ReadResult)
    requires Disciplined(n) && k < |n.readers| && n.readers[k].Reading?
    ensures HandledOf(n.(readers := n.readers[k := Holding(res)])) == HandledOf(n)
  {
    assert k == |n.readers| - 1;
    ReceivedLast(n.readers, Holding(res));
  }

  /** Steps of the loop and its readers that handle no result keep the handled ones. */
  lemma HandledSame(cfg: Config, n: Conn, t: nat, a: Action)
    requires IsConnAction(a) && ConnEnabled(n, a) && Disciplined(n) && !a.LoopHandles?
    ensures HandledOf(LoopNext(cfg, n, t, a)) == HandledOf(n)
  {
    if a.StartRead? {
      HandledStart(n);
    } else if a.ReaderGets? {
      HandledGet(n, a.reader, a.res);
    } else if a.LoopReceives? {
      HandledReceive(n);
    } else {
      var n' := LoopNext(cfg, n, t, a);
      assert n'.readers == n.readers && n'.loop.Got? == n.loop.Got?;
    }
  }

  lemma DisciplinedStep(cfg: Config, n: Conn, t: nat, a: Action)
    requires IsConnAction(a) && ConnEnabled(n, a) && Disciplined(n)
    ensures Disciplined(LoopNext(cfg, n, t, a))
  {
  }

  lemma HandledAdds(n: Conn, n': Conn)
    requires Disciplined(n) && n.loop.Got? && n'.readers == n.readers && !n'.loop.Got?
    ensures HandledOf(n') == HandledOf(n) + [n.loop.res]
  {
    ReceivedLast(n.readers, n.readers[|n.readers| - 1]);
  }

  /** Handling a result consumes it: it becomes a task exactly if it is a frame with a decodable type. */
  lemma LoopHandlesOk(cfg: Config, n: Conn, t: nat, a: Action)
    requires ConnOk(cfg, n) && n.loop.Got? && a.LoopHandles?
    ensures var n' := LoopNext(cfg, n, t, a); FramesOf(n'.dispatched) == Decodable(cfg, HandledOf(n'))
  {
    var n' := LoopNext(cfg, n, t, a);
    HandledAdds(n, n');
    DecodableExtend(cfg, HandledOf(n), n.loop.res);
    if StartsTask(cfg, n.loop.res) {
      FramesExtend(n.dispatched, Dispatch(t, n.loop.res.frame));
      assert n'.dispatched == n.dispatched + [Dispatch(t, n.loop.res.frame)];
    } else {
      assert n'.dispatched == n.dispatched;
    }
  }

  lemma ConnOkStep(cfg: Config, n: Conn, t: nat, a: Action)
    requires IsConnAction(a) && ConnEnabled(n, a) && ConnOk(cfg, n)
    ensures ConnOk(cfg, LoopNext(cfg, n, t, a))
  {
    DisciplinedStep(cfg, n, t, a);
    if a.LoopHandles? {
      LoopHandlesOk(cfg, n, t, a);
    } else {
      HandledSame(cfg, n, t, a);
    }
  }

  // ---------- Tasks and dispatches match one to one ----------

  predicate TaskListed(s: State, t: nat)
    requires t < |s.tasks|
  {
    var k := s.tasks[t];
    k.conn < |s.conns| && k.slot < |s.conns[k.conn].dispatched| &&
    s.conns[k.conn].dispatched[k.slot] == Dispatch(t, k.frame)
  }

  predicate DispatchListed(s: State, c: nat, i: nat)
    requires c < |s.conns| && i < |s.conns[c].dispatched|
  {
    var d := s.conns[c].dispatched[i];
    d.task < |s.tasks| && s.tasks[d.task].conn == c && s.tasks[d.task].slot == i
  }

  ghost predicate Listed(s: State) {
    && (forall t :: 0 <= t < |s.tasks| ==> TaskListed(s, t))
    && (forall c, i :: 0 <= c < |s.conns| && 0 <= i < |s.conns[c].dispatched| ==> DispatchListed(s, c, i))
  }

  ghost predicate ReadOk(cfg: Config, s: State) {
    && (forall c :: 0 <= c < |s.conns| ==> ConnOk(cfg, s.conns[c]))
    && Listed(s)
  }

  predicate SameReading(n: Conn, n': Conn) {
    n'.loop == n.loop && n'.readers == n.readers && n'.dispatched == n.dispatched
  }

  predicate SameOrigin(k: Task, k': Task) {
    k'.conn == k.conn && k'.slot == k.slot && k'.frame == k.frame
  }

  lemma TaskStepReading(cfg: Config, s: State, a: Action)
    requires IsTaskAction(a) && Enabled(s, a)
    ensures var s' := Next(cfg, s, a);
      && |s'.conns| == |s.conns| && |s'.tasks| == |s.tasks|
      && (forall c :: 0 <= c < |s.conns| ==> SameReading(s.conns[c], s'.conns[c]))
      && (forall t :: 0 <= t < |s.tasks| ==> SameOrigin(s.tasks[t], s'.tasks[t]))
  {
    if a.Critical? {
      CriticalTasks(s, a.t);
    } else {
      StepTasks(cfg, s, a);
    }
  }

  lemma ReadOkSame(cfg: Config, s: State, s': State)
    requires ReadOk(cfg, s)
    requires |s'.conns| == |s.conns| && |s'.tasks| == |s.tasks|
    requires forall c :: 0 <= c < |s.conns| ==> SameReading(s.conns[c], s'.conns[c])
    requires forall t :: 0 <= t < |s.tasks| ==> SameOrigin(s.tasks[t], s'.tasks[t])
    ensures ReadOk(cfg, s')
  {
    forall c | 0 <= c < |s.conns|
      ensures ConnOk(cfg, s'.conns[c])
    {
      assert ConnOk(cfg, s.conns[c]);
    }
    ListedSame(s, s');
  }

  lemma ListedSame(s: State, s': State)
    requires Listed(s)
    requires |s'.conns| == |s.conns| && |s'.tasks| == |s.tasks|
    requires forall c :: 0 <= c < |s.conns| ==> s'.conns[c].dispatched == s.conns[c].dispatched
    requires forall t :: 0 <= t < |s.tasks| ==> SameOrigin(s.tasks[t], s'.tasks[t])
    ensures Listed(s')
  {
    forall t | 0 <= t < |s'.tasks|
      ensures TaskListed(s', t)
    {
      assert TaskListed(s, t);
    }
    forall c: nat, i: nat | c < |s'.conns| && i < |s'.conns[c].dispatched|
      ensures DispatchListed(s', c, i)
    {
      assert DispatchListed(s, c, i);
    }
  }

  /** A dispatch lists the fresh task in the next slot of its connection. */
  lemma ListedDispatch(s: State, s': State, c: nat, frame: Frame)
    requires Listed(s) && c < |s.conns| && |s'.conns| == |s.conns|
    requires s'.tasks == s.tasks + [NewTask(c, |s.conns[c].dispatched|, frame)]
    requires s'.conns[c].dispatched == s.conns[c].dispatched + [Dispatch(|s.tasks|, frame)]
    requires forall d :: 0 <= d < |s.conns| && d != c ==> s'.conns[d] == s.conns[d]
    ensures Listed(s')
  {
    forall t | 0 <= t < |s'.tasks|
      ensures TaskListed(s', t)
    {
      if t < |s.tasks| {
        assert TaskListed(s, t);
      }
    }
    forall d: nat, i: nat | d < |s'.conns| && i < |s'.conns[d].dispatched|
      ensures DispatchListed(s', d, i)
    {
      if i < |s.conns[d].dispatched| {
        assert DispatchListed(s, d, i);
      }
    }
  }

  lemma ListedConnStep(cfg: Config, s: State, a: Action)
    requires Listed(s) && IsConnAction(a) && Enabled(s, a)
    ensures Listed(Next(cfg, s, a))
  {
    var s' := Next(cfg, s, a);
    if a.LoopHandles? && StartsTask(cfg, s.conns[a.c].loop.res) {
      ListedDispatch(s, s', a.c, s.conns[a.c].loop.res.frame);
    } else {
      assert forall c :: 0 <= c < |s.conns| ==> s'.conns[c].dispatched == s.conns[c].dispatched;
      ListedSame(s, s');
    }
  }

  lemma ReadOkConnStep(cfg: Config, s: State, a: Action)
    requires ReadOk(cfg, s) && IsConnAction(a) && Enabled(s, a)
    ensures ReadOk(cfg, Next(cfg, s, a))
  {
    var n' := LoopNext(cfg, s.conns[a.c], |s.tasks|, a);
    ListedConnStep(cfg, s, a);
    ConnOkStep(cfg, s.conns[a.c], |s.tasks|, a);
    NextConns(cfg, s, a);
    var conns' := s.conns[a.c := n'];
    forall c | 0 <= c < |conns'|
      ensures ConnOk(cfg, conns'[c])
    {
      assert c == a.c || ConnOk(cfg, s.conns[c]);
    }
  }

  lemma NextConns(cfg: Config, s: State, a: Action)
    requires IsConnAction(a) && Enabled(s, a)
    ensures Next(cfg, s, a).conns == s.conns[a.c := LoopNext(cfg, s.conns[a.c], |s.tasks|, a)]
  {
  }

  lemma ListedWithNewConn(s: State, s': State)
    requires Listed(s) && s'.tasks == s.tasks && s'.conns == s.conns + [NEW_CONN]
    ensures Listed(s')
  {
    forall t | 0 <= t < |s'.tasks|
      ensures TaskListed(s', t)
    {
      assert TaskListed(s, t);
    }
    forall c: nat, i: nat | c < |s'.conns| && i < |s'.conns[c].dispatched|
      ensures DispatchListed(s', c, i)
    {
      assert DispatchListed(s, c, i);
    }
  }

  lemma ReadOkOpen(cfg: Config, s: State)
    requires ReadOk(cfg, s)
    ensures ReadOk(cfg, Next(cfg, s, OpenConn))
  {
    ListedWithNewConn(s, Next(cfg, s, OpenConn));
  }

  lemma {:induction false} ReadOkReachable(cfg: Config, acts: seq<Action>)
    requires Legal(cfg, acts)
    ensures ReadOk(cfg, After(cfg, acts))
  {
    if acts != [] {
      var a := acts[|acts| - 1];
      ReadOkReachable(cfg, acts[..|acts| - 1]);
      var s := After(cfg, acts[..|acts| - 1]);
      if a.OpenConn? {
        ReadOkOpen(cfg, s);
      } else if IsConnAction(a) {
        ReadOkConnStep(cfg, s, a);
      } else {
        TaskStepReading(cfg, s, a);
        ReadOkSame(cfg, s, Next(cfg, s, a));
      }
    }
  }

  // ---------- What a run of the loop guarantees ----------

  /** At every point at most one reader of a connection has not delivered: the latest one, and while the
      loop runs only one it is selecting on. */
  lemma {:induction false} OneReadOutstanding(cfg: Config, acts: seq<Action>, c: nat, i: nat)
    requires Legal(cfg, acts) && c < |After(cfg, acts).conns|
    requires i < |After(cfg, acts).conns[c].readers| && !After(cfg, acts).conns[c].readers[i].Delivered?
    ensures var n := After(cfg, acts).conns[c];
      && i == |n.readers| - 1
      && (n.loop == Selecting(i) || n.loop.Broken? || n.loop.Closing? || n.loop.Exited?)
  {
    ReadOkReachable(cfg, acts);
    assert ConnOk(cfg, After(cfg, acts).conns[c]);
  }

  predicate Left(n: Conn) {
    n.loop.Broken? || n.loop.Closing? || n.loop.Exited?
  }

  /** n' is n with its left-behind reader no further than before: nothing new received or dispatched. */
  predicate StillLeft(n: Conn, n': Conn) {
    && Left(n') && |n'.readers| == |n.readers|
    && ReceivedOf(n'.readers) == ReceivedOf(n.readers) && n'.dispatched == n.dispatched
  }

  lemma LeftStep(cfg: Config, s: State, a: Action, c: nat)
    requires Enabled(s, a) && c < |s.conns| && Left(s.conns[c])
    ensures c < |Next(cfg, s, a).conns| && StillLeft(s.conns[c], Next(cfg, s, a).conns[c])
  {
    if IsTaskAction(a) {
      TaskStepReading(cfg, s, a);
    } else if a.ReaderGets? && a.c == c {
      ReceivedSame(s.conns[c].readers, a.reader, a.res);
    }
  }

  /** Once out of its for loop a connection starts no read, receives nothing and dispatches nothing:
      a reader it left behind stays parked, whatever the run does next. */
  lemma {:induction false} LeftReaderStaysParked(cfg: Config, acts: seq<Action>, m: nat, c: nat)
    requires Legal(cfg, acts) && m <= |acts| && c < |StateAt(cfg, acts, m).conns|
    requires Left(StateAt(cfg, acts, m).conns[c])
    ensures c < |After(cfg, acts).conns|
    ensures StillLeft(StateAt(cfg, acts, m).conns[c], After(cfg, acts).conns[c])
    decreases |acts| - m
  {
    if m == |acts| {
      StateAtEnds(cfg, acts);
    } else {
      StateAtStep(cfg, acts, m);
      LeftStep(cfg, StateAt(cfg, acts, m), acts[m], c);
      LeftReaderStaysParked(cfg, acts, m + 1, c);
    }
  }

  lemma {:induction false} ReceivedSame(readers: seq<Reader>, k: nat, res: ReadResult)
    requires k < |readers| && readers[k].Reading?
    ensures ReceivedOf(readers[k := Holding(res)]) == ReceivedOf(readers)
  {
    var n := |readers| - 1;
    if k < n {
      ReceivedSame(readers[..n], k, res);
      assert readers[k := Holding(res)][..n] == readers[..n][k := Holding(res)];
    } else {
      assert readers[k := Holding(res)][..n] == readers[..n];
    }
  }

  /** The received results are the read ones, but for at most the last one read. */
  lemma {:induction false} AllSettledRead(readers: seq<Reader>)
    requires forall i :: 0 <= i < |readers| ==> Settled(readers[i])
    ensures ReadOf(readers) == ReceivedOf(readers)
  {
    if readers != [] {
      AllSettledRead(readers[..|readers| - 1]);
    }
  }

  /** The results that the reads of connection c came back with in a run, in order. */
  function ResultsOf(acts: seq<Action>, c: nat): seq<ReadResult> {
    if acts == [] then []
    else
      var last := acts[|acts| - 1];
      ResultsOf(acts[..|acts| - 1], c) + (if last.ReaderGets? && last.c == c then [last.res] else [])
  }

  lemma ReadLast(readers: seq<Reader>, r: Reader)
    requires readers != []
    ensures var n := |readers| - 1;
      && ReadOf(readers) == ReadOf(readers[..n]) + ReadBy(readers[n])
      && ReadOf(readers[n := r]) == ReadOf(readers[..n]) + ReadBy(r)
  {
    assert readers[|readers| - 1 := r][..|readers| - 1] == readers[..|readers| - 1];
  }

  lemma ReadsStart(readers: seq<Reader>)
    ensures ReadOf(readers + [Reading]) == ReadOf(readers)
  {
    assert (readers + [Reading])[..|readers|] == readers;
  }

  lemma ReadsGet(n: Conn, k: nat, res: ReadResult)
    requires Disciplined(n) && k < |n.readers| && n.readers[k].Reading?
    ensures ReadOf(n.readers[k := Holding(res)]) == ReadOf(n.readers) + [res]
  {
    assert k == |n.readers| - 1;
    ReadLast(n.readers, Holding(res));
  }

  lemma ReadsReceive(n: Conn)
    requires Disciplined(n) && n.loop.Selecting? && n.loop.reader < |n.readers| && n.readers[n.loop.reader].Holding?
    ensures var k := n.loop.reader; ReadOf(n.readers[k := Delivered(n.readers[k].held)]) == ReadOf(n.readers)
  {
    ReadLast(n.readers, Delivered(n.readers[n.loop.reader].held));
  }

  lemma LoopReads(cfg: Config, n: Conn, t: nat, a: Action)
    requires IsConnAction(a) && ConnEnabled(n, a) && Disciplined(n)
    ensures ReadOf(LoopNext(cfg, n, t, a).readers) == ReadOf(n.readers) + (if a.ReaderGets? then [a.res] else [])
  {
    if a.StartRead? {
      ReadsStart(n.readers);
    } else if a.ReaderGets? {
      ReadsGet(n, a.reader, a.res);
    } else if a.LoopReceives? {
      ReadsReceive(n);
    } else {
      assert LoopNext(cfg, n, t, a).readers == n.readers;
    }
  }

  lemma {:induction false} DisciplinedAt(cfg: Config, acts: seq<Action>, c: nat)
    requires Legal(cfg, acts) && c < |After(cfg, acts).conns|
    ensures Disciplined(After(cfg, acts).conns[c])
  {
    ReadOkReachable(cfg, acts);
    assert ConnOk(cfg, After(cfg, acts).conns[c]);
  }

  lemma NewConnReads(cfg: Config, s: State, a: Action, c: nat)
    requires Enabled(s, a) && |s.conns| <= c < |Next(cfg, s, a).conns|
    ensures a.OpenConn? && Next(cfg, s, a).conns[c].readers == []
  {
    if IsTaskAction(a) {
      TaskStepReading(cfg, s, a);
    } else if IsConnAction(a) {
      NextConns(cfg, s, a);
    }
  }

  /** In every run the readers of a connection hold what its reads came back with, in order. */
  lemma {:induction false} ReadIsHistory(cfg: Config, acts: seq<Action>, c: nat)
    requires Legal(cfg, acts) && c < |After(cfg, acts).conns|
    ensures ReadOf(After(cfg, acts).conns[c].readers) == ResultsOf(acts, c)
  {
    var front, a := acts[..|acts| - 1], acts[|acts| - 1];
    var s := After(cfg, front);
    if c < |s.conns| {
      ReadIsHistory(cfg, front, c);
      DisciplinedAt(cfg, front, c);
      ReadsInStep(cfg, s, a, c);
    } else {
      NoResultsYet(cfg, front, c);
      NewConnReads(cfg, s, a, c);
    }
  }

  lemma ReadsInStep(cfg: Config, s: State, a: Action, c: nat)
    requires Enabled(s, a) && c < |s.conns| && Disciplined(s.conns[c])
    ensures c < |Next(cfg, s, a).conns|
    ensures ReadOf(Next(cfg, s, a).conns[c].readers) ==
            ReadOf(s.conns[c].readers) + (if a.ReaderGets? && a.c == c then [a.res] else [])
  {
    if IsTaskAction(a) {
      TaskStepReading(cfg, s, a);
    } else if IsConnAction(a) {
      NextConns(cfg, s, a);
      if a.c == c {
        LoopReads(cfg, s.conns[c], |s.tasks|, a);
      }
    }
  }

  lemma {:induction false} NoResultsYet(cfg: Config, acts: seq<Action>, c: nat)
    requires Legal(cfg, acts) && |After(cfg, acts).conns| <= c
    ensures ResultsOf(acts, c) == []
  {
    if acts != [] {
      var front, a := acts[..|acts| - 1], acts[|acts| - 1];
      if IsTaskAction(a) {
        TaskStepReading(cfg, After(cfg, front), a);
      } else if IsConnAction(a) {
        NextConns(cfg, After(cfg, front), a);
      }
      NoResultsYet(cfg, front, c);
    }
  }

  lemma HandledIsPrefix(n: Conn)
    requires Disciplined(n)
    ensures HandledOf(n) <= ReadOf(n.readers) && |ReadOf(n.readers)| <= |HandledOf(n)| + 1
  {
    if n.readers != [] {
      AllSettledRead(n.readers[..|n.readers| - 1]);
    }
  }

  /**
    In every run, the frames that became tasks of a connection are exactly the decodable ones of a prefix
    of what its reads came back with, a prefix that misses at most the last result.
   */
  lemma {:induction false} DispatchedArePrefixOfRead(cfg: Config, acts: seq<Action>, c: nat)
    requires Legal(cfg, acts) && c < |After(cfg, acts).conns|
    ensures var n := After(cfg, acts).conns[c];
      && HandledOf(n) <= ResultsOf(acts, c)
      && |ResultsOf(acts, c)| <= |HandledOf(n)| + 1
      && FramesOf(n.dispatched) == Decodable(cfg, HandledOf(n))
  {
    ReadOkReachable(cfg, acts);
    ReadIsHistory(cfg, acts, c);
    assert ConnOk(cfg, After(cfg, acts).conns[c]);
    HandledIsPrefix(After(cfg, acts).conns[c]);
  }

  /** Every dispatched frame has exactly one task, and every task exactly one dispatched frame. */
  lemma {:induction false} OneTaskPerDispatch(cfg: Config, acts: seq<Action>, c: nat, i: nat, t: nat)
    requires Legal(cfg, acts) && c < |After(cfg, acts).conns|
    requires i < |After(cfg, acts).conns[c].dispatched| && t < |After(cfg, acts).tasks|
    ensures var s := After(cfg, acts); var d := s.conns[c].dispatched[i];
      && d.task < |s.tasks| && s.tasks[d.task].frame == d.frame
      && (d.task == t <==> s.tasks[t].conn == c && s.tasks[t].slot == i)
  {
    ReadOkReachable(cfg, acts);
    assert DispatchListed(After(cfg, acts), c, i);
    assert TaskListed(After(cfg, acts), t);
    assert TaskListed(After(cfg, acts), After(cfg, acts).conns[c].dispatched[i].task);
  }

  /** With a decoding that has nowhere to put its result, no run ever starts a task. */
  lemma {:induction false} NothingDispatchedWithoutPointer(cfg: Config, acts: seq<Action>)
    requires Legal(cfg, acts) && !cfg.decodesIntoPointer
    ensures After(cfg, acts).tasks == [] && After(cfg, acts).active == map[]
  {
    Reachable(cfg, acts);
    var s := After(cfg, acts);
    assert s.tasks == [] || TaskOk(cfg, s.tasks[0]);
    assert forall id :: id !in s.active;
  }
}
