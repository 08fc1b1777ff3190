/**
  One session's output, end to end: feeders write the ring, the waiter records the exit and
  closes it, and any number of data-plane connections replay it by byte offset.

  The ring appears as the log it refines (module Ring); one step is one critical section.
 */
module Stream {
  import opened Options
  import Paths
  import opened Ring

  datatype Ack = AckAlive | AckExited(code: int)

  /** A data frame; `start` is the log offset of its first byte. */
  datatype Chunk = Chunk(start: nat, bytes: seq<Byte>)

  datatype ConnPhase = Streaming | Broken | Drained | Ended

  /**
    `from` is the offset the host asked for, `off` the streaming cursor, `exit` the Exit frame.
    The last three are history: the host asked for an offset the session had not reached, the
    ring had dropped bytes this connection had not read yet, a write failed.
   */
  datatype Conn = Conn(
    from: nat, off: nat, ack: Ack, chunks: seq<Chunk>, exit: Option<int>, phase: ConnPhase,
    ahead: bool, lagged: bool, failed: bool)

  datatype WaiterPhase = Waiting | Got(code: int) | CodeStored | ExitStored | RingClosed

  datatype State = State(
    cap: nat,
    log: seq<Byte>,
    closed: bool,
    feeders: set<nat>,
    delivered: Option<int>,
    waiter: WaiterPhase,
    exitCode: int,
    exited: bool,
    conns: map<nat, Conn>)

  /** A started session: two pipe feeders, or one for a PTY. */
  predicate Init(s: State)
  {
    && s.cap > 0 && s.log == [] && !s.closed && s.delivered == None && s.waiter == Waiting
    && s.exitCode == 0 && !s.exited && s.conns == map[]
  }

  // ----- steps -----

  predicate Feed(s: State, s': State, f: nat, p: seq<Byte>)
  {
    && f in s.feeders && p != []
    && s' == s.(log := s.log + p)
  }

  predicate FeederEnds(s: State, s': State, f: nat)
  {
    && f in s.feeders
    && s' == s.(feeders := s.feeders - {f})
  }

  /** The reap loop (or cmd.Wait) sends the exit code. */
  predicate Deliver(s: State, s': State, code: int)
  {
    && s.delivered == None
    && s' == s.(delivered := Some(code))
  }

  /** feedWg.Wait and then the receive. */
  predicate Receive(s: State, s': State)
  {
    && s.waiter == Waiting && s.feeders == {} && s.delivered.Some?
    && s' == s.(waiter := Got(s.delivered.value))
  }

  /** setExited, store by store: the code, then the flag, then the ring. */
  predicate StoreCode(s: State, s': State)
  {
    && s.waiter.Got?
    && s' == s.(waiter := CodeStored, exitCode := s.waiter.code)
  }

  predicate StoreExited(s: State, s': State)
  {
    && s.waiter == CodeStored
    && s' == s.(waiter := ExitStored, exited := true)
  }

  predicate CloseRing(s: State, s': State)
  {
    && s.waiter == ExitStored
    && s' == s.(waiter := RingClosed, closed := true)
  }

  predicate Connect(s: State, s': State, c: nat, from: nat)
  {
    && c !in s.conns
    && s' == s.(conns := s.conns[c :=
               Conn(from, from, if s.exited then AckExited(s.exitCode) else AckAlive, [], None, Streaming,
                    from > |s.log|, false, false)])
  }

  /** What one WaitNext hands to a connection, whether or not the write then succeeds. */
  function Advance(s: State, conn: Conn, sent: bool): Conn
  {
    var data := Read(s.log, s.cap, conn.off);
    var start := ReadStart(|s.log|, s.cap, conn.off);
    conn.(off := ReadEnd(|s.log|, s.cap, conn.off),
          failed := conn.failed || (data != [] && !sent),
          lagged := conn.lagged || conn.off < Oldest(|s.log|, s.cap),
          chunks := if data != [] && sent then conn.chunks + [Chunk(start, data)] else conn.chunks,
          phase := if data != [] && !sent then Broken
                   else if data == [] && s.closed then Drained
                   else Streaming)
  }

  /** One turn of streamRingToWriter, once WaitNext's wait is over. */
  predicate Stream(s: State, s': State, c: nat, sent: bool)
  {
    && c in s.conns && s.conns[c].phase == Streaming && (s.conns[c].off != |s.log| || s.closed)
    && s' == s.(conns := s.conns[c := Advance(s, s.conns[c], sent)])
  }

  /** The Exit frame is attempted even on a broken connection; `sent` says whether it got out. */
  predicate SendExit(s: State, s': State, c: nat, sent: bool)
  {
    && c in s.conns && (s.conns[c].phase == Drained || s.conns[c].phase == Broken)
    && s' == s.(conns := s.conns[c := s.conns[c].(
               phase := Ended, exit := if sent then Some(s.exitCode) else None)])
  }

  datatype Step =
    | FeedStep(f: nat, p: seq<Byte>)
    | FeederEndsStep(f: nat)
    | DeliverStep(code: int)
    | ReceiveStep
    | StoreCodeStep
    | StoreExitedStep
    | CloseRingStep
    | ConnectStep(c: nat, from: nat)
    | StreamStep(c: nat, sent: bool)
    | SendExitStep(c: nat, sent: bool)

  predicate Next(s: State, s': State, step: Step)
  {
    match step
    case FeedStep(f, p) => Feed(s, s', f, p)
    case FeederEndsStep(f) => FeederEnds(s, s', f)
    case DeliverStep(code) => Deliver(s, s', code)
    case ReceiveStep => Receive(s, s')
    case StoreCodeStep => StoreCode(s, s')
    case StoreExitedStep => StoreExited(s, s')
    case CloseRingStep => CloseRing(s, s')
    case ConnectStep(c, from) => Connect(s, s', c, from)
    case StreamStep(c, sent) => Stream(s, s', c, sent)
    case SendExitStep(c, sent) => SendExit(s, s', c, sent)
  }

  ghost predicate StepAt(run: seq<State>, steps: seq<Step>, i: nat)
    requires i < |steps| && |run| == |steps| + 1
  {
    Next(run[i], run[i + 1], steps[i])
  }

  ghost predicate IsRun(run: seq<State>, steps: seq<Step>)
  {
    && |run| == |steps| + 1
    && Init(run[0])
    && forall i: nat | i < |steps| :: StepAt(run, steps, i)
  }

  // ----- what a connection has been sent -----

  function End(k: Chunk): nat
  {
    k.start + |k.bytes|
  }

  /** Where the chunk before position `i` ended. */
  function PrevEnd(from: nat, chunks: seq<Chunk>, i: nat): nat
    requires i <= |chunks|
  {
    if i == 0 then from else End(chunks[i - 1])
  }

  function LastEnd(conn: Conn): nat
  {
    PrevEnd(conn.from, conn.chunks, |conn.chunks|)
  }

  function SentBytes(chunks: seq<Chunk>): seq<Byte>
  {
    if chunks == [] then [] else SentBytes(chunks[..|chunks| - 1]) + chunks[|chunks| - 1].bytes
  }

  /** Chunk `i` is a slice of the log past the chunk before it; what it skips has been evicted. */
  predicate SliceAt(log: seq<Byte>, cap: nat, from: nat, chunks: seq<Chunk>, i: nat)
    requires i < |chunks|
  {
    var k := chunks[i];
    && k.bytes != []
    && PrevEnd(from, chunks, i) <= k.start
    && End(k) <= |log| && k.bytes == log[k.start..End(k)]
    && (PrevEnd(from, chunks, i) < k.start ==> k.start + cap <= |log|)
  }

  /** Strictly increasing slices of the log that skip evicted bytes only. */
  predicate Slices(log: seq<Byte>, cap: nat, conn: Conn)
  {
    forall i: nat | i < |conn.chunks| :: SliceAt(log, cap, conn.from, conn.chunks, i)
  }

  /** One contiguous slice from the requested offset on. */
  predicate Contiguous(log: seq<Byte>, conn: Conn)
  {
    var sent := SentBytes(conn.chunks);
    && LastEnd(conn) == conn.from + |sent| <= |log|
    && sent == log[conn.from..LastEnd(conn)]
  }

  /** Everything known of a connection that asked for an offset at or below the total. */
  predicate ConnOk(s: State, conn: Conn)
  {
    && conn.from <= |s.log| && conn.off <= |s.log|
    && Slices(s.log, s.cap, conn)
    && (!conn.failed ==> LastEnd(conn) == conn.off)
    && (!conn.lagged ==> Contiguous(s.log, conn))
    && (conn.phase == Drained || (conn.phase == Ended && !conn.failed) ==> s.closed && conn.off == |s.log|)
  }

  predicate ExitOk(s: State, conn: Conn)
  {
    && (conn.phase == Streaming || conn.phase == Drained ==> !conn.failed)
    && (conn.phase == Broken ==> conn.failed)
    && (conn.exit.Some? ==> conn.phase == Ended)
    && (conn.exit.Some? && !conn.failed ==> s.delivered == conn.exit)
    && (conn.phase == Drained || (conn.phase == Ended && !conn.failed) ==> s.closed)
    && (conn.ack.AckExited? ==> s.delivered == Some(conn.ack.code))
  }

  /** setExited has stored the code. */
  predicate Stored(s: State)
  {
    s.waiter == CodeStored || s.waiter == ExitStored || s.waiter == RingClosed
  }

  predicate WaiterOk(s: State)
  {
    && s.cap > 0
    && (s.waiter != Waiting ==> s.feeders == {} && s.delivered.Some?)
    && (s.waiter.Got? ==> s.delivered == Some(s.waiter.code))
    && (!Stored(s) ==> s.exitCode == 0)
    && (Stored(s) ==> s.delivered == Some(s.exitCode))
    && (s.exited <==> s.waiter == ExitStored || s.waiter == RingClosed)
    && (s.closed <==> s.waiter == RingClosed)
  }

  predicate Inv(s: State)
  {
    && WaiterOk(s)
    && (forall c | c in s.conns :: ExitOk(s, s.conns[c]) && (!s.conns[c].ahead ==> ConnOk(s, s.conns[c])))
  }

  // ----- every step keeps it -----

  lemma FeedKeepsSlices(log: seq<Byte>, p: seq<Byte>, cap: nat, conn: Conn)
    requires Slices(log, cap, conn)
    ensures Slices(log + p, cap, conn)
  {
    forall i: nat | i < |conn.chunks|
      ensures SliceAt(log + p, cap, conn.from, conn.chunks, i)
    {
      assert SliceAt(log, cap, conn.from, conn.chunks, i);
      var k := conn.chunks[i];
      assert (log + p)[k.start..End(k)] == log[k.start..End(k)];
    }
  }

  lemma FeedKeepsConn(s: State, s': State, f: nat, p: seq<Byte>, conn: Conn)
    requires ConnOk(s, conn) && Feed(s, s', f, p) && WaiterOk(s)
    ensures ConnOk(s', conn)
  {
    FeedKeepsSlices(s.log, p, s.cap, conn);
    if !conn.lagged {
      assert s'.log[conn.from..LastEnd(conn)] == s.log[conn.from..LastEnd(conn)];
    }
  }

  lemma AppendSlice(log: seq<Byte>, cap: nat, conn: Conn, k: Chunk)
    requires Slices(log, cap, conn) && LastEnd(conn) <= k.start && k.bytes != []
    requires End(k) <= |log| && k.bytes == log[k.start..End(k)]
    requires LastEnd(conn) < k.start ==> k.start + cap <= |log|
    ensures Slices(log, cap, conn.(chunks := conn.chunks + [k]))
  {
    var chunks := conn.chunks + [k];
    forall i: nat | i < |chunks|
      ensures SliceAt(log, cap, conn.from, chunks, i)
    {
      if i < |conn.chunks| {
        assert SliceAt(log, cap, conn.from, conn.chunks, i);
        assert PrevEnd(conn.from, chunks, i) == PrevEnd(conn.from, conn.chunks, i);
      }
    }
  }

  lemma AppendContiguous(log: seq<Byte>, conn: Conn, k: Chunk)
    requires Contiguous(log, conn) && LastEnd(conn) == k.start
    requires End(k) <= |log| && k.bytes == log[k.start..End(k)]
    ensures Contiguous(log, conn.(chunks := conn.chunks + [k]))
  {
  }

  /** The chunk the next turn reads. */
  function NextChunk(s: State, conn: Conn): Chunk
  {
    Chunk(ReadStart(|s.log|, s.cap, conn.off), Read(s.log, s.cap, conn.off))
  }

  lemma ChunkIsNext(s: State, conn: Conn)
    requires s.cap > 0 && conn.off <= |s.log| && NextChunk(s, conn).bytes != []
    ensures var k := NextChunk(s, conn);
            && conn.off <= k.start && End(k) == Advance(s, conn, true).off <= |s.log|
            && k.bytes == s.log[k.start..End(k)]
            && (conn.off < k.start ==> k.start + s.cap <= |s.log| && Advance(s, conn, true).lagged)
  {
  }

  /** A chunk that goes out extends the slices by one. */
  lemma SendingKeepsConn(s: State, conn: Conn)
    requires s.cap > 0 && ConnOk(s, conn) && !conn.failed && conn.phase == Streaming
             && Read(s.log, s.cap, conn.off) != []
    ensures ConnOk(s, Advance(s, conn, true))
  {
    var k := NextChunk(s, conn);
    ChunkIsNext(s, conn);
    AppendSlice(s.log, s.cap, conn, k);
    if !Advance(s, conn, true).lagged {
      AppendContiguous(s.log, conn, k);
    }
    var next := conn.(chunks := conn.chunks + [k], off := End(k), lagged := Advance(s, conn, true).lagged);
    assert Advance(s, conn, true) == next;
  }

  lemma AdvanceKeepsConn(s: State, conn: Conn, sent: bool)
    requires s.cap > 0 && ConnOk(s, conn) && ExitOk(s, conn) && conn.phase == Streaming
             && (conn.off != |s.log| || s.closed)
    ensures ConnOk(s, Advance(s, conn, sent))
  {
    if Read(s.log, s.cap, conn.off) != [] && sent {
      SendingKeepsConn(s, conn);
    } else {
      StillKeepsConn(s, conn, sent);
    }
  }

  lemma StillKeepsConn(s: State, conn: Conn, sent: bool)
    requires s.cap > 0 && ConnOk(s, conn) && !conn.failed && conn.phase == Streaming
             && (conn.off != |s.log| || s.closed)
    requires Read(s.log, s.cap, conn.off) == [] || !sent
    ensures ConnOk(s, Advance(s, conn, sent))
  {
  }

  lemma ConnectOk(s: State, from: nat, conn: Conn)
    requires from <= |s.log|
    requires conn == Conn(from, from, conn.ack, [], None, Streaming, false, false, false)
    ensures ConnOk(s, conn)
  {
  }

  lemma StepKeepsExits(s: State, s': State, step: Step)
    requires WaiterOk(s) && Next(s, s', step) && forall c | c in s.conns :: ExitOk(s, s.conns[c])
    ensures WaiterOk(s') && forall c | c in s'.conns :: ExitOk(s', s'.conns[c])
  {
  }

  lemma ConnFrame(s: State, s': State, conn: Conn, conn': Conn)
    requires ConnOk(s, conn) && s'.log == s.log && s'.cap == s.cap && (s.closed ==> s'.closed)
    requires conn' == conn.(phase := conn'.phase, exit := conn'.exit)
    requires conn'.phase == conn.phase
             || (conn'.phase == Ended && (conn.phase == Drained || (conn.phase == Broken && conn.failed)))
    ensures ConnOk(s', conn')
  {
  }

  lemma ConnectKeepsConn(s: State, s': State, d: nat, from: nat, c: nat)
    requires Connect(s, s', d, from) && c in s'.conns && !s'.conns[c].ahead
    requires c in s.conns ==> ConnOk(s, s.conns[c])
    ensures ConnOk(s', s'.conns[c])
  {
    if c == d {
      ConnectOk(s', from, s'.conns[c]);
    } else {
      ConnFrame(s, s', s.conns[c], s'.conns[c]);
    }
  }

  lemma StreamKeepsConn(s: State, s': State, d: nat, sent: bool, c: nat)
    requires s.cap > 0 && Stream(s, s', d, sent) && c in s.conns && ConnOk(s, s.conns[c]) && ExitOk(s, s.conns[c])
    ensures ConnOk(s', s'.conns[c])
  {
    var conn := s.conns[c];
    if c == d {
      AdvanceKeepsConn(s, conn, sent);
      conn := Advance(s, conn, sent);
    }
    ConnFrame(s, s', conn, s'.conns[c]);
  }

  lemma SendExitKeepsConn(s: State, s': State, d: nat, sent: bool, c: nat)
    requires SendExit(s, s', d, sent) && c in s.conns && ConnOk(s, s.conns[c]) && ExitOk(s, s.conns[c])
    ensures ConnOk(s', s'.conns[c])
  {
    ConnFrame(s, s', s.conns[c], s'.conns[c]);
  }

  lemma StepKeepsConn(s: State, s': State, step: Step, c: nat)
    requires WaiterOk(s) && Next(s, s', step) && c in s'.conns && !s'.conns[c].ahead
    requires c in s.conns && !s.conns[c].ahead ==> ExitOk(s, s.conns[c]) && ConnOk(s, s.conns[c])
    ensures ConnOk(s', s'.conns[c])
  {
    match step
    case FeedStep(f, p) => FeedKeepsConn(s, s', f, p, s.conns[c]);
    case ConnectStep(d, from) => ConnectKeepsConn(s, s', d, from, c);
    case StreamStep(d, sent) => StreamKeepsConn(s, s', d, sent, c);
    case SendExitStep(d, sent) => SendExitKeepsConn(s, s', d, sent, c);
    case _ => ConnFrame(s, s', s.conns[c], s.conns[c]);
  }

  lemma StepKeepsInv(s: State, s': State, step: Step)
    requires Inv(s) && Next(s, s', step)
    ensures Inv(s')
  {
    StepKeepsExits(s, s', step);
    forall c | c in s'.conns && !s'.conns[c].ahead
      ensures ConnOk(s', s'.conns[c])
    {
      StepKeepsConn(s, s', step, c);
    }
  }

  lemma {:induction false} RunKeepsInv(run: seq<State>, steps: seq<Step>, i: nat)
    requires IsRun(run, steps) && i < |run|
    ensures Inv(run[i])
  {
    if i > 0 {
      RunKeepsInv(run, steps, i - 1);
      assert StepAt(run, steps, i - 1);
      StepKeepsInv(run[i - 1], run[i], steps[i - 1]);
    }
  }

  // ----- the promises -----

  /** No ring write follows Close. */
  lemma {:induction false} NoWriteAfterClose(run: seq<State>, steps: seq<Step>, i: nat, k: nat)
    requires IsRun(run, steps) && i <= k < |run| && run[i].closed
    ensures run[k].closed && run[k].log == run[i].log && run[k].cap == run[i].cap
    decreases k
  {
    if i < k {
      NoWriteAfterClose(run, steps, i, k - 1);
      RunKeepsInv(run, steps, k - 1);
      assert StepAt(run, steps, k - 1);
    }
  }

  /**
    A connection whose writes all succeeded sends Exit only after every byte: what it was sent
    are increasing slices up to the end of the final log, all of it from the requested offset on
    if it never lagged, and the code is the one the child exited with.
   */
  lemma ExitIsLast(run: seq<State>, steps: seq<Step>, i: nat, k: nat, c: nat)
    requires IsRun(run, steps) && i <= k < |run| && c in run[i].conns
    requires run[i].conns[c].exit.Some? && !run[i].conns[c].failed && !run[i].conns[c].ahead
    ensures
      var conn := run[i].conns[c];
      && run[k].closed && run[k].delivered == conn.exit
      && Slices(run[k].log, run[k].cap, conn) && LastEnd(conn) == |run[k].log|
      && (!conn.lagged ==> conn.from <= |run[k].log| && SentBytes(conn.chunks) == run[k].log[conn.from..])
  {
    RunKeepsInv(run, steps, i);
    NoWriteAfterClose(run, steps, i, k);
    DeliveredOnce(run, steps, i, k);
  }

  lemma {:induction false} DeliveredOnce(run: seq<State>, steps: seq<Step>, i: nat, k: nat)
    requires IsRun(run, steps) && i <= k < |run| && run[i].delivered.Some?
    ensures run[k].delivered == run[i].delivered
    decreases k
  {
    if i < k {
      DeliveredOnce(run, steps, i, k - 1);
      assert StepAt(run, steps, k - 1);
    }
  }

  lemma {:induction false} StoredStays(run: seq<State>, steps: seq<Step>, i: nat, k: nat)
    requires IsRun(run, steps) && i <= k < |run| && Stored(run[i])
    ensures Stored(run[k])
    decreases k
  {
    if i < k {
      StoredStays(run, steps, i, k - 1);
      assert StepAt(run, steps, k - 1);
    }
  }

  /** Once stored, the exit code is the child's and never changes; before that it is 0. */
  lemma CodeIsFinal(run: seq<State>, steps: seq<Step>, i: nat, k: nat)
    requires IsRun(run, steps) && i <= k < |run|
    ensures Stored(run[i]) ==> run[k].exitCode == run[i].exitCode && run[k].delivered == Some(run[k].exitCode)
    ensures !Stored(run[i]) ==> run[i].exitCode == 0
  {
    RunKeepsInv(run, steps, i);
    if Stored(run[i]) {
      StoredStays(run, steps, i, k);
      RunKeepsInv(run, steps, k);
      DeliveredOnce(run, steps, i, k);
    }
  }

  /**
    Reconnecting where the first connection stopped neither loses nor repeats a byte, however the
    first one ended: both together were sent exactly the log from the first offset on.
   */
  lemma ReconnectResumes(run: seq<State>, steps: seq<Step>, i: nat, c: nat, d: nat)
    requires IsRun(run, steps) && i < |run| && c in run[i].conns && d in run[i].conns
    requires !run[i].conns[c].ahead && !run[i].conns[c].lagged && !run[i].conns[d].ahead && !run[i].conns[d].lagged
    requires run[i].conns[d].from == run[i].conns[c].from + |SentBytes(run[i].conns[c].chunks)|
    ensures
      var first, second := run[i].conns[c], run[i].conns[d];
      && second.from + |SentBytes(second.chunks)| <= |run[i].log|
      && SentBytes(first.chunks) + SentBytes(second.chunks)
         == run[i].log[first.from..second.from + |SentBytes(second.chunks)|]
  {
    RunKeepsInv(run, steps, i);
    var log, first, second := run[i].log, run[i].conns[c], run[i].conns[d];
    SlicesJoin(log, first.from, second.from, LastEnd(second));
  }

  lemma SlicesJoin(log: seq<Byte>, a: nat, b: nat, c: nat)
    requires a <= b <= c <= |log|
    ensures log[a..b] + log[b..c] == log[a..c]
  {
  }

  /** Every turn of `c` between the steps `i` and `k` finds it at most the capacity behind. */
  predicate KeepsUp(run: seq<State>, steps: seq<Step>, i: nat, k: nat, c: nat)
    requires k <= |steps| < |run|
  {
    forall m | i <= m < k && steps[m].StreamStep? && steps[m].c == c ::
      c in run[m].conns && run[m].conns[c].off + run[m].cap >= |run[m].log|
  }

  lemma StepKeepsUp(s: State, s': State, step: Step, c: nat)
    requires Next(s, s', step) && c in s.conns
    requires step.StreamStep? && step.c == c ==> s.conns[c].off + s.cap >= |s.log|
    ensures c in s'.conns && s'.conns[c].from == s.conns[c].from && s'.conns[c].ahead == s.conns[c].ahead
    ensures s'.conns[c].lagged == s.conns[c].lagged
    ensures s'.conns[c].failed ==> s.conns[c].failed || step == StreamStep(c, false)
  {
  }

  lemma {:induction false} StaysAbreast(run: seq<State>, steps: seq<Step>, i: nat, k: nat, c: nat)
    requires IsRun(run, steps) && i < k <= |steps| && steps[i].ConnectStep? && steps[i].c == c
             && steps[i].from <= |run[i].log|
    requires KeepsUp(run, steps, i, k, c)
    ensures c in run[k].conns && run[k].conns[c].from == steps[i].from
    ensures !run[k].conns[c].ahead && !run[k].conns[c].lagged
    ensures (forall m | i <= m < k :: steps[m] != StreamStep(c, false)) ==> !run[k].conns[c].failed
    decreases k
  {
    assert StepAt(run, steps, k - 1);
    if i < k - 1 {
      StaysAbreast(run, steps, i, k - 1, c);
      StepKeepsUp(run[k - 1], run[k], steps[k - 1], c);
    }
  }

  /**
    A connection that asks for an offset the session has reached, and that the ring never outruns by
    more than its capacity, is sent exactly the log from that offset on, without a gap: up to its
    cursor, as long as no write fails.
   */
  lemma KeepingUpIsExact(run: seq<State>, steps: seq<Step>, i: nat, k: nat, c: nat)
    requires IsRun(run, steps) && i < k <= |steps| && steps[i].ConnectStep? && steps[i].c == c
             && steps[i].from <= |run[i].log|
    requires KeepsUp(run, steps, i, k, c)
    ensures c in run[k].conns
    ensures var conn, from := run[k].conns[c], steps[i].from;
            var sent := SentBytes(conn.chunks);
            && from + |sent| <= |run[k].log| && sent == run[k].log[from..from + |sent|]
            && ((forall m | i <= m < k :: steps[m] != StreamStep(c, false)) ==> conn.off == from + |sent|)
  {
    StaysAbreast(run, steps, i, k, c);
    RunKeepsInv(run, steps, k);
  }

  /** And it skips bytes as soon as the ring does: the turn that finds it further behind is not contiguous. */
  lemma FallingBehindSkips(s: State, s': State, c: nat)
    requires Inv(s) && Stream(s, s', c, true) && !s.conns[c].ahead && s.conns[c].off + s.cap < |s.log|
    ensures var chunks := s'.conns[c].chunks;
            chunks != [] && s.conns[c].off < chunks[|chunks| - 1].start == |s.log| - s.cap
  {
  }

  /** After Close every turn of the loop ends it or brings the cursor closer to the end. */
  lemma ClosedStreamEnds(s: State, s': State, c: nat, sent: bool)
    requires Inv(s) && s.closed && Stream(s, s', c, sent) && !s.conns[c].ahead
    ensures s'.conns[c].phase != Streaming || |s'.log| - s'.conns[c].off < |s.log| - s.conns[c].off
    ensures s.conns[c].off == |s.log| ==> s'.conns[c].phase == Drained
  {
  }

  /**
    An offset the session has not reached is not honoured: the first turn moves the cursor back
    to the total and sends nothing, so what is written next arrives although it was not asked for.
   */
  lemma AheadIsRewound(s: State, s': State, c: nat, sent: bool)
    requires Stream(s, s', c, sent)
    ensures s'.conns[c].off < s.conns[c].off <==> s.conns[c].off > |s.log|
    ensures s.conns[c].off > |s.log| ==> s'.conns[c].off == |s.log| && s'.conns[c].chunks == s.conns[c].chunks
  {
  }

  /**
    After a failed write the Exit frame is attempted at once. It carries the code the child exits
    with exactly when that code was already stored, or is 0.
   */
  lemma BrokenExitIff(run: seq<State>, steps: seq<Step>, i: nat, k: nat, c: nat, code: int)
    requires IsRun(run, steps) && i < |steps| && steps[i] == SendExitStep(c, true) && i <= k < |run|
    requires c in run[i].conns && run[i].conns[c].phase == Broken && run[k].delivered == Some(code)
    ensures c in run[i + 1].conns
    ensures run[i + 1].conns[c].exit == Some(code) <==> Stored(run[i]) || code == 0
  {
    assert StepAt(run, steps, i);
    CodeIsFinal(run, steps, i, k);
  }

  /**
    The failing run: a write fails while the child runs, and the frame the code then attempts says 0. Here
    that attempt gets out, which is up to the connection.
   */
  lemma EarlyExit(b: Byte, code: int) returns (run: seq<State>, steps: seq<Step>)
    ensures IsRun(run, steps) && |steps| == 5 && steps[3] == SendExitStep(0, true)
    ensures 0 in run[5].conns && run[5].conns[0].exit == Some(0) && run[5].delivered == Some(code)
  {
    var s0 := State(1, [], false, {0}, None, Waiting, 0, false, map[]);
    var conn := Conn(0, 0, AckAlive, [], None, Streaming, false, false, false);
    var s1 := s0.(conns := map[0 := conn]);
    var s2 := s1.(log := [b]);
    assert s1.log + [b] == s2.log;
    var s3 := BreaksAtOnce(s2, conn, b);
    var s4 := s3.(conns := map[0 := s3.conns[0].(phase := Ended, exit := Some(0))]);
    var s5 := s4.(delivered := Some(code));
    run := [s0, s1, s2, s3, s4, s5];
    steps := [ConnectStep(0, 0), FeedStep(0, [b]), StreamStep(0, false), SendExitStep(0, true), DeliverStep(code)];
    forall i: nat | i < 5
      ensures StepAt(run, steps, i)
    {
      assert i == 0 || i == 1 || i == 2 || i == 3 || i == 4;
    }
  }

  lemma BreaksAtOnce(s: State, conn: Conn, b: Byte) returns (r: State)
    requires s.cap == 1 && s.log == [b] && s.conns == map[0 := conn] && conn.phase == Streaming && conn.off == 0
             && conn.exit == None
    ensures Stream(s, r, 0, false) && r == s.(conns := r.conns) && r.conns.Keys == {0} && r.conns[0].phase == Broken
  {
    assert Read(s.log, s.cap, 0) == [b];
    r := s.(conns := map[0 := Advance(s, conn, false)]);
  }

  // ----- what a host is told when it connects -----

  predicate MarkedBefore(steps: seq<Step>, i: nat)
    requires i <= |steps|
  {
    exists j | 0 <= j < i :: steps[j].StoreExitedStep?
  }

  lemma {:induction false} ExitedIff(run: seq<State>, steps: seq<Step>, i: nat)
    requires IsRun(run, steps) && i < |run|
    ensures run[i].exited <==> MarkedBefore(steps, i)
  {
    if i > 0 {
      ExitedIff(run, steps, i - 1);
      assert StepAt(run, steps, i - 1);
    }
  }

  lemma {:induction false} AckStays(run: seq<State>, steps: seq<Step>, i: nat, k: nat, c: nat)
    requires IsRun(run, steps) && i <= k < |run| && c in run[i].conns
    ensures c in run[k].conns && run[k].conns[c].ack == run[i].conns[c].ack
    ensures run[k].conns[c].from == run[i].conns[c].from
    decreases k
  {
    if i < k {
      AckStays(run, steps, i, k - 1, c);
      assert StepAt(run, steps, k - 1);
    }
  }

  /**
    A host is told that the session has exited exactly when setExited had marked it before the host connected,
    and the code is then the one the child exited with; otherwise it is told that the session is alive. Either
    way that stays the answer, and the offset is the one it asked for.
   */
  lemma AckIff(run: seq<State>, steps: seq<Step>, i: nat, k: nat, c: nat, from: nat)
    requires IsRun(run, steps) && i < |steps| && steps[i] == ConnectStep(c, from) && i < k < |run|
    ensures c in run[k].conns && run[k].conns[c].from == from
    ensures run[k].conns[c].ack.AckExited? <==> MarkedBefore(steps, i)
    ensures MarkedBefore(steps, i) ==>
              run[i].delivered.Some? && run[k].conns[c].ack == AckExited(run[i].delivered.value)
  {
    ExitedIff(run, steps, i);
    RunKeepsInv(run, steps, i);
    assert StepAt(run, steps, i);
    AckStays(run, steps, i + 1, k, c);
  }

  // ----- and that the connection comes to an end -----

  ghost predicate CanTake(s: State, step: Step)
  {
    exists s' :: Next(s, s', step)
  }

  /** A connection can take a turn exactly while it streams and there is something to wait for no longer. */
  lemma TurnIff(s: State, c: nat, sent: bool)
    ensures CanTake(s, StreamStep(c, sent))
       <==> c in s.conns && s.conns[c].phase == Streaming && (s.conns[c].off != |s.log| || s.closed)
    ensures CanTake(s, SendExitStep(c, sent))
       <==> c in s.conns && (s.conns[c].phase == Drained || s.conns[c].phase == Broken)
  {
    if c in s.conns {
      var conn := s.conns[c];
      if conn.phase == Streaming && (conn.off != |s.log| || s.closed) {
        assert Next(s, s.(conns := s.conns[c := Advance(s, conn, sent)]), StreamStep(c, sent));
      }
      if conn.phase == Drained || conn.phase == Broken {
        var ended := conn.(phase := Ended, exit := if sent then Some(s.exitCode) else None);
        assert Next(s, s.(conns := s.conns[c := ended]), SendExitStep(c, sent));
      }
    }
  }

  /** The waiter can receive exactly when the feeders are done and the code is there; then it stores and closes. */
  lemma WaiterIff(s: State)
    ensures CanTake(s, ReceiveStep) <==> s.waiter == Waiting && s.feeders == {} && s.delivered.Some?
    ensures CanTake(s, StoreCodeStep) <==> s.waiter.Got?
    ensures CanTake(s, StoreExitedStep) <==> s.waiter == CodeStored
    ensures CanTake(s, CloseRingStep) <==> s.waiter == ExitStored
  {
    if s.waiter == Waiting && s.feeders == {} && s.delivered.Some? {
      assert Next(s, s.(waiter := Got(s.delivered.value)), ReceiveStep);
    }
    if s.waiter.Got? {
      assert Next(s, s.(waiter := CodeStored, exitCode := s.waiter.code), StoreCodeStep);
    }
    if s.waiter == CodeStored {
      assert Next(s, s.(waiter := ExitStored, exited := true), StoreExitedStep);
    }
    if s.waiter == ExitStored {
      assert Next(s, s.(waiter := RingClosed, closed := true), CloseRingStep);
    }
  }

  /** Hosts connect at any time, feeders write while they last, and a code is delivered once. */
  lemma OpenIff(s: State, c: nat, from: nat, f: nat, p: seq<Byte>, code: int)
    ensures CanTake(s, ConnectStep(c, from)) <==> c !in s.conns
    ensures CanTake(s, FeedStep(f, p)) <==> f in s.feeders && p != []
    ensures CanTake(s, FeederEndsStep(f)) <==> f in s.feeders
    ensures CanTake(s, DeliverStep(code)) <==> s.delivered == None
  {
    if c !in s.conns {
      var ack := if s.exited then AckExited(s.exitCode) else AckAlive;
      var conn := Conn(from, from, ack, [], None, Streaming, from > |s.log|, false, false);
      assert Next(s, s.(conns := s.conns[c := conn]), ConnectStep(c, from));
    }
    if f in s.feeders {
      assert p != [] ==> Next(s, s.(log := s.log + p), FeedStep(f, p));
      assert Next(s, s.(feeders := s.feeders - {f}), FeederEndsStep(f));
    }
    if s.delivered == None {
      assert Next(s, s.(delivered := Some(code)), DeliverStep(code));
    }
  }

  /** A turn of connection `c`, whatever becomes of its writes. */
  ghost predicate Turns(s: State, s': State, c: nat)
  {
    exists sent :: Next(s, s', StreamStep(c, sent)) || Next(s, s', SendExitStep(c, sent))
  }

  predicate Over(s: State, c: nat)
  {
    c in s.conns && s.conns[c].phase == Ended
  }

  predicate Closing(s: State, c: nat)
  {
    s.cap > 0 && s.closed && c in s.conns
  }

  function TurnsLeft(s: State, c: nat): nat
  {
    if c !in s.conns || s.conns[c].phase == Ended then 0
    else if s.conns[c].phase == Streaming then (if s.conns[c].off <= |s.log| then |s.log| - s.conns[c].off else 0) + 2
    else 1
  }

  lemma TurnComesCloser(s: State, s': State, c: nat)
    requires Closing(s, c) && !Over(s, c) && Turns(s, s', c)
    ensures Closing(s', c) && TurnsLeft(s', c) < TurnsLeft(s, c)
  {
  }

  /** Once the ring is closed, a connection is over after at most one turn per byte left, and two. */
  lemma ConnectionEnds(s: State, c: nat)
    requires Closing(s, c)
    ensures Paths.Comes((x, y) => Turns(x, y, c), x => true, (x, y) => false, x => Over(x, c), s, TurnsLeft(s, c))
  {
    var forced, turn := (x, y) => Turns(x, y, c), (x: State, y: State) => false;
    var busy, done := (x: State) => true, (x: State) => Over(x, c);
    var inv, left := (x: State) => Closing(x, c), (x: State) => TurnsLeft(x, c);
    forall x | inv(x) && !done(x) && busy(x)
      ensures exists y :: forced(x, y)
    {
      TurnIff(x, c, true);
      if x.conns[c].phase == Streaming {
        var y :| Next(x, y, StreamStep(c, true));
        assert forced(x, y);
      } else {
        var y :| Next(x, y, SendExitStep(c, true));
        assert forced(x, y);
      }
    }
    forall x, y | inv(x) && !done(x) && busy(x) && forced(x, y)
      ensures Paths.Closer(inv, left, done, x, y)
    {
      TurnComesCloser(x, y, c);
    }
    Paths.ComesInTime(forced, busy, turn, done, inv, left, s, TurnsLeft(s, c));
  }
}
