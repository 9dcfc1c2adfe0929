/**
 `recv_test`: a server times a non-blocking receive per round; a client sends one message per
 round. Two pipes keep them in step, so that the receive always finds exactly one message. The
 two processes are a transition system with arbitrary interleaving; forks, sockets and binds
 succeed. A send queues a message that fits. Of one that does not, a socket that splits messages
 queues as much as it has room for; any other fails with EAGAIN.
 The clock is logical: every step of either process advances it by one.
 */
module RecvHandshake {

  datatype ServerPc = SListen | SFirstWrite | SAccept | STest | SRead | SStart | SRecv | SStop | SCheck | SWrite
                    | SWait | SDone | SFailed

  datatype ClientPc = CFirstRead | CConnect | CTest | CSend | CWrite | CRead | CExited | CFailed

  datatype Connection = Closed | Listening | Pending | Accepted

  /** `capacity` is what a pipe holds, `socketRoom` what the socket holds, `splits` whether sends can be partial. */
  datatype Config = Config(iters: nat, msgSize: nat, capacity: nat, socketRoom: nat, splits: bool)

  /**
   `pipe1` carries bytes from server to client, `pipe2` from client to server; `queued` is the
   socket. `again` says that the client's errno is EAGAIN, which no success resets.
   */
  datatype State = State(server: ServerPc, client: ClientPc, sIdx: nat, cIdx: nat,
                         pipe1: nat, pipe2: nat, conn: Connection, queued: nat, got: int,
                         clock: nat, tstart: nat, tend: nat, diffs: seq<int>, again: bool)

  /** The client inherits any errno. */
  predicate Initial(s: State) {
    s.server == SListen && s.client == CFirstRead && s.sIdx == 0 && s.cIdx == 0
    && s.pipe1 == 0 && s.pipe2 == 0 && s.conn == Closed && s.queued == 0
    && s.clock == 0 && s.diffs == []
  }

  // ----- the two programs

  predicate ServerEnabled(c: Config, s: State) {
    match s.server
    case SFirstWrite | SWrite => s.pipe1 < c.capacity
    case SAccept => s.conn == Pending
    case SRead => s.pipe2 > 0
    case SWait => s.client == CExited
    case SDone | SFailed => false
    case SListen | STest | SStart | SRecv | SStop | SCheck => true
  }

  /** A non-blocking receive takes what is there up to the buffer size, and fails on nothing. */
  function Received(c: Config, s: State): int {
    if s.queued == 0 then -1 else if s.queued <= c.msgSize then s.queued else c.msgSize
  }

  function ServerStep(c: Config, s: State): State
    requires ServerEnabled(c, s)
  {
    ServerAction(c, s).(clock := s.clock + 1)
  }

  function ServerAction(c: Config, s: State): State
    requires ServerEnabled(c, s)
  {
    match s.server
    case SListen => s.(server := SFirstWrite, conn := Listening)
    case SFirstWrite => s.(server := SAccept, pipe1 := s.pipe1 + 1)
    case SAccept => s.(server := STest, conn := Accepted)
    case STest => s.(server := if s.sIdx < c.iters then SRead else SWait)
    case SRead => s.(server := SStart, pipe2 := s.pipe2 - 1)
    case SStart => s.(server := SRecv, tstart := s.clock)
    case SRecv =>
      var n := Received(c, s);
      s.(server := SStop, got := n, queued := if n < 0 then s.queued else s.queued - n)
    case SStop => s.(server := SCheck, tend := s.clock)
    case SCheck =>
      if s.got != c.msgSize then s.(server := SFailed, client := CFailed)   // kills the client
      else s.(server := SWrite, diffs := s.diffs + [s.tend - s.tstart])
    case SWrite => s.(server := STest, pipe1 := s.pipe1 + 1, sIdx := s.sIdx + 1)
    case SWait => s.(server := SDone)
  }

  predicate ClientEnabled(c: Config, s: State) {
    match s.client
    case CFirstRead | CRead => s.pipe1 > 0
    case CWrite => s.pipe2 < c.capacity
    case CConnect | CTest | CSend => true
    case CExited | CFailed => false
  }

  /** A non-blocking send queues the message if it fits, else what a splitting socket has room for, else fails. */
  function Sent(c: Config, s: State): int {
    if s.queued + c.msgSize <= c.socketRoom then c.msgSize
    else if c.splits && s.queued < c.socketRoom then c.socketRoom - s.queued
    else -1
  }

  function ClientStep(c: Config, s: State): State
    requires ClientEnabled(c, s)
  {
    ClientAction(c, s).(clock := s.clock + 1)
  }

  function ClientAction(c: Config, s: State): State
    requires ClientEnabled(c, s)
  {
    match s.client
    case CFirstRead => s.(client := CConnect, pipe1 := s.pipe1 - 1)
    case CConnect => if s.conn == Closed then s.(client := CFailed) else s.(client := CTest, conn := Pending)
    case CTest => s.(client := if s.cIdx < c.iters then CSend else CExited)
    case CSend =>
      var n := Sent(c, s);
      var again := s.again || n < 0;
      s.(client := if n != c.msgSize && again then CSend else CWrite,
         queued := if n < 0 then s.queued else s.queued + n, again := again)
    case CWrite => s.(client := CRead, pipe2 := s.pipe2 + 1)
    case CRead => s.(client := CTest, pipe1 := s.pipe1 - 1, cIdx := s.cIdx + 1)
  }

  predicate Next(c: Config, s: State, t: State) {
    (ServerEnabled(c, s) && t == ServerStep(c, s)) || (ClientEnabled(c, s) && t == ClientStep(c, s))
  }

  ghost predicate IsRun(c: Config, run: seq<State>) {
    run != [] && Initial(run[0]) && forall i :: 0 <= i < |run| - 1 ==> Next(c, run[i], run[i + 1])
  }

  predicate Stuck(c: Config, s: State) {
    !ServerEnabled(c, s) && !ClientEnabled(c, s)
  }

  /** The two steps from the reading of the timer before the receive to the one after it. */
  const RECEIVE_TIME := 2

  predicate Finished(c: Config, s: State) {
    && s.server == SDone && s.client == CExited && s.sIdx == c.iters && s.cIdx == c.iters
    && s.pipe1 == 0 && s.pipe2 == 0 && s.queued == 0 && s.conn == Accepted
    && s.diffs == seq(c.iters, _ => RECEIVE_TIME)
  }

  // ----- the invariant

  /** A pipe holds a byte, a message is not empty, and the socket has room for it if any is sent. */
  predicate Sized(c: Config) {
    c.capacity > 0 && c.msgSize > 0 && (c.iters == 0 || c.msgSize <= c.socketRoom)
  }

  predicate Connecting(s: State) { s.client == CFirstRead || s.client == CConnect }

  /** The server waits for its peer: not yet inside a round. */
  predicate Idle(s: State) { s.server in {SAccept, STest, SRead, SWait} }

  /** Before the connection: the first byte on `pipe1` tells the client that the server listens. */
  predicate Meeting(s: State) {
    && s.pipe2 == 0 && s.queued == 0 && s.sIdx == 0 && s.cIdx == 0 && s.diffs == []
    && match s.server
       case SListen => s.client == CFirstRead && s.pipe1 == 0 && s.conn == Closed
       case SFirstWrite => s.client == CFirstRead && s.pipe1 == 0 && s.conn == Listening
       case SAccept => s.pipe1 == (if s.client == CFirstRead then 1 else 0) && s.conn == Listening
       case _ => false
  }

  /** The timer brackets the receive and nothing else. */
  predicate Timed(s: State) {
    && |s.diffs| == s.sIdx + (if s.server == SWrite then 1 else 0)
    && (forall i :: 0 <= i < |s.diffs| ==> s.diffs[i] == RECEIVE_TIME)
    && (s.server == SRecv ==> s.clock == s.tstart + 1)
    && (s.server == SStop ==> s.clock == s.tstart + 2)
    && (s.server == SCheck ==> s.tend == s.tstart + 2)
  }

  /** After the connection: where the message and the one byte of the round are. */
  predicate Rounds(c: Config, s: State) {
    && s.conn == (if s.server == SAccept then Pending else Accepted)
    && (s.server == SAccept ==> s.sIdx == 0)
    && Timed(s)
    && s.sIdx <= c.iters && s.cIdx <= c.iters
    && (s.server == SWait || s.server == SDone ==> s.sIdx == c.iters)
    && (s.server == SDone ==> s.client == CExited)
    && (s.server in {SRead, SStart, SRecv, SStop, SCheck, SWrite} ==> s.sIdx < c.iters)
    && match s.client
       case CTest => s.pipe1 == 0 && s.pipe2 == 0 && s.queued == 0 && s.sIdx == s.cIdx && Idle(s)
       case CSend => s.pipe1 == 0 && s.pipe2 == 0 && s.queued == 0 && s.sIdx == s.cIdx < c.iters && Idle(s)
       case CWrite => s.pipe1 == 0 && s.pipe2 == 0 && s.queued == c.msgSize && s.sIdx == s.cIdx < c.iters && Idle(s)
       case CRead =>
         s.cIdx < c.iters &&
         (if s.pipe1 > 0 then s.pipe1 == 1 && s.pipe2 == 0 && s.queued == 0 && s.sIdx == s.cIdx + 1 && Idle(s)
          else s.sIdx == s.cIdx &&
               if s.pipe2 > 0 then s.pipe2 == 1 && s.queued == c.msgSize && Idle(s)
               else if s.server == SStart || s.server == SRecv then s.queued == c.msgSize
               else s.queued == 0 && s.got == c.msgSize && s.server in {SStop, SCheck, SWrite})
       case CExited => s.cIdx == c.iters == s.sIdx && s.pipe1 == 0 && s.pipe2 == 0 && s.queued == 0
                       && (Idle(s) || s.server == SDone)
       case _ => false
  }

  predicate Inv(c: Config, s: State) {
    if Connecting(s) then Meeting(s) else Rounds(c, s)
  }

  lemma InvInitial(c: Config, s: State)
    requires Initial(s)
    ensures Inv(c, s)
  {
  }

  lemma ServerKeeps(c: Config, s: State)
    requires Inv(c, s) && ServerEnabled(c, s) && Sized(c)
    ensures Inv(c, ServerStep(c, s))
  {
    hide Timed;
    if !Connecting(s) { ServerTimes(c, s); }
  }

  lemma ServerTimes(c: Config, s: State)
    requires Rounds(c, s) && ServerEnabled(c, s) && Sized(c)
    ensures Timed(ServerStep(c, s))
  {
  }

  lemma ClientKeeps(c: Config, s: State)
    requires Inv(c, s) && ClientEnabled(c, s) && Sized(c)
    ensures Inv(c, ClientStep(c, s))
  {
  }

  lemma {:induction false} RunInv(c: Config, run: seq<State>, i: nat)
    requires IsRun(c, run) && i < |run| && Sized(c)
    ensures Inv(c, run[i])
  {
    if i == 0 {
      InvInitial(c, run[0]);
    } else {
      RunInv(c, run, i - 1);
      var s := run[i - 1];
      assert Next(c, s, run[i - 1 + 1]);
      if ServerEnabled(c, s) { ServerKeeps(c, s); }
      if ClientEnabled(c, s) { ClientKeeps(c, s); }
    }
  }

  // ----- safety over every run

  /** The connect follows the listen, and neither process ever takes an error path. */
  lemma ConnectFollowsListen(c: Config, run: seq<State>, i: nat)
    requires IsRun(c, run) && i < |run| && Sized(c)
    ensures run[i].client == CConnect ==> run[i].conn == Listening
    ensures run[i].client != CFailed && run[i].server != SFailed
  {
    RunInv(c, run, i);
  }

  /** That is what the first byte on `pipe1` is for: a connect fails exactly when nobody listens. */
  lemma ConnectNeedsListener(c: Config, s: State)
    requires s.client == CConnect
    ensures var t := ClientStep(c, s);
            (t.client == CFailed <==> s.conn == Closed) && (t.client != CFailed ==> t.conn == Pending)
  {
  }

  /** Every receive finds exactly one whole message, and every send finds the socket empty. */
  lemma ReceiveFindsOneMessage(c: Config, run: seq<State>, i: nat)
    requires IsRun(c, run) && i < |run| && Sized(c)
    ensures run[i].server == SRecv ==> run[i].queued == c.msgSize && Received(c, run[i]) == c.msgSize
    ensures run[i].client == CSend ==> run[i].queued == 0 && ClientStep(c, run[i]).client == CWrite
  {
    RunInv(c, run, i);
  }

  /** While the timer runs the client is blocked, so it cannot disturb the measurement. */
  lemma TimedReceiveUndisturbed(c: Config, run: seq<State>, i: nat)
    requires IsRun(c, run) && i < |run| && Sized(c)
    ensures run[i].server == SRecv || run[i].server == SStop ==> !ClientEnabled(c, run[i])
  {
    RunInv(c, run, i);
  }

  /** Under every interleaving a recorded interval is two steps long; `TimerBracketsReceive` says which they are. */
  lemma EveryReceiveTimedAlone(c: Config, run: seq<State>, n: nat, i: nat)
    requires IsRun(c, run) && n < |run| && i < |run[n].diffs| && Sized(c)
    ensures run[n].diffs[i] == RECEIVE_TIME
  {
    RunInv(c, run, n);
  }

  /** The clock of the `i`-th state of a run is `i`. */
  lemma {:induction false} ClockIsIndex(c: Config, run: seq<State>, i: nat)
    requires IsRun(c, run) && i < |run|
    ensures run[i].clock == i
  {
    if i == 0 {
    } else {
      ClockIsIndex(c, run, i - 1);
      assert Next(c, run[i - 1], run[i - 1 + 1]);
    }
  }

  /**
   From state `a` on: the timer is started there, the whole message being queued already; the next
   step takes the message off the socket. The client stays where it is.
   */
  predicate TakenAfter(c: Config, run: seq<State>, a: nat) {
    && a + 2 < |run| && run[a + 1].tstart == a
    && run[a].queued == c.msgSize && run[a + 1].queued == c.msgSize && run[a + 2].queued == 0
    && run[a].client == run[a + 1].client == run[a + 2].client
  }

  /** How far the server has got with the timed section, read off the run so far. */
  predicate Bracketing(c: Config, run: seq<State>, n: nat)
    requires n < |run|
  {
    var s := run[n];
    match s.server
    case SRecv => n >= 1 && s.tstart == n - 1 && run[n - 1].queued == c.msgSize == s.queued
                  && run[n - 1].client == s.client
    case SStop => n >= 2 && s.tstart == n - 2 && TakenAfter(c, run, n - 2)
    case SCheck => n >= 3 && s.tstart == n - 3 && s.tend == n - 1 && TakenAfter(c, run, n - 3)
                   && run[n - 1].client == s.client
    case _ => true
  }

  /** Inside the timed section only the server moves. */
  lemma TimedStep(c: Config, s: State, t: State)
    requires Inv(c, s) && Sized(c) && Next(c, s, t)
    ensures t.server == SRecv ==> s.server == SStart && t.tstart == s.clock && t.queued == s.queued == c.msgSize
    ensures t.server == SStop ==> s.server == SRecv && t.tstart == s.tstart && s.queued == c.msgSize && t.queued == 0
    ensures t.server == SCheck ==> s.server == SStop && t.tstart == s.tstart && t.tend == s.clock
    ensures t.server in {SRecv, SStop, SCheck} ==> t.client == s.client
  {
    hide Inv;
    ClientWaits(c, s);
  }

  lemma ClientWaits(c: Config, s: State)
    requires Inv(c, s) && Sized(c)
    ensures s.server in {SStart, SRecv, SStop, SCheck} ==> !ClientEnabled(c, s)
    ensures s.server in {SStart, SRecv} ==> s.queued == c.msgSize
  {
    hide Timed;
  }

  lemma BracketStep(c: Config, run: seq<State>, n: nat)
    requires IsRun(c, run) && 0 < n < |run| && Sized(c) && Bracketing(c, run, n - 1)
    ensures Bracketing(c, run, n)
  {
    hide Inv, Sized, Next, Initial;
    RunInv(c, run, n - 1);
    ClockIsIndex(c, run, n - 1);
    assert Next(c, run[n - 1], run[n - 1 + 1]);
    TimedStep(c, run[n - 1], run[n]);
  }

  lemma {:induction false} RunBrackets(c: Config, run: seq<State>, n: nat)
    requires IsRun(c, run) && n < |run| && Sized(c)
    ensures Bracketing(c, run, n)
  {
    if n == 0 {
    } else {
      RunBrackets(c, run, n - 1);
      BracketStep(c, run, n);
    }
  }

  lemma RecordStep(c: Config, s: State, t: State)
    requires Next(c, s, t)
    ensures t.diffs != s.diffs ==> s.server == SCheck && t.diffs == s.diffs + [s.tend - s.tstart]
  {
  }

  /** The stop of the timer is the step right before the check. */
  lemma TimerStopped(c: Config, run: seq<State>, n: nat)
    requires IsRun(c, run) && n < |run| && Sized(c) && run[n].server == SCheck
    ensures n >= 3 && run[n].tend == n - 1 && TakenAfter(c, run, n - 3) && run[n - 1].client == run[n].client
  {
    RunBrackets(c, run, n);
  }

  /**
   Whenever an interval is recorded, it reaches from a reading of the clock in step `a` to one in
   step `a + 2`, and the step between them takes the whole message off the socket. The message was
   queued before the timer started, and no step of the client falls in between.
   */
  lemma TimerBracketsReceive(c: Config, run: seq<State>, n: nat)
    requires IsRun(c, run) && n + 1 < |run| && Sized(c) && run[n + 1].diffs != run[n].diffs
    ensures exists a: nat ::
              && a + 2 < n && run[a + 1].tstart == a && run[a + 3].tend == a + 2
              && run[n + 1].diffs == run[n].diffs + [run[a + 3].tend - run[a + 1].tstart]
              && run[a].queued == run[a + 1].queued == c.msgSize && run[a + 2].queued == 0
              && run[a].client == run[a + 1].client == run[a + 2].client == run[a + 3].client
  {
    hide Inv, Sized, Next, Initial;
    RunInv(c, run, n);
    RunBrackets(c, run, n);
    assert Next(c, run[n], run[n + 1]);
    RecordStep(c, run[n], run[n + 1]);
    TimerStopped(c, run, n);
    var a: nat := n - 3;
    assert TakenAfter(c, run, a);
  }

  /**
   Whatever is queued, a receive moves bytes and loses none: it fails exactly when nothing is
   there, takes no more than the buffer holds, and leaves something only if the buffer is full.
   */
  lemma ReceiveTakes(c: Config, s: State)
    requires s.server == SRecv
    ensures var t := ServerStep(c, s);
            && (t.got < 0 <==> s.queued == 0)
            && s.queued == t.queued + (if t.got < 0 then 0 else t.got)
            && t.got <= c.msgSize && (t.queued == 0 || t.got == c.msgSize)
  {
  }

  /** With messages, pipes and socket of any size, no run ever holds more than there is room for. */
  lemma {:induction false} NothingOverflows(c: Config, run: seq<State>, i: nat)
    requires IsRun(c, run) && i < |run|
    ensures run[i].pipe1 <= c.capacity && run[i].pipe2 <= c.capacity && run[i].queued <= c.socketRoom
  {
    if i == 0 {
    } else {
      NothingOverflows(c, run, i - 1);
      assert Next(c, run[i - 1], run[i - 1 + 1]);
    }
  }

  // ----- liveness

  /** Steps left: each step of either process takes exactly one off. */
  function StepsLeft(c: Config, s: State): int {
    7 * (c.iters - s.sIdx) + ServerRank(s.server) + 4 * (c.iters - s.cIdx) + ClientRank(s.client)
  }

  function ServerRank(p: ServerPc): int {
    match p
    case SListen => 5
    case SFirstWrite => 4
    case SAccept => 3
    case STest => 2
    case SRead | SWait => 1
    case SStart | SDone => 0
    case SRecv => -1
    case SStop => -2
    case SCheck => -3
    case SWrite => -4
    case SFailed => -4
  }

  function ClientRank(p: ClientPc): int {
    match p
    case CFirstRead => 3
    case CConnect => 2
    case CTest => 1
    case CSend | CExited => 0
    case CWrite => -1
    case CRead | CFailed => -2
  }

  lemma StepCounts(c: Config, s: State, t: State)
    requires Inv(c, s) && Next(c, s, t) && Sized(c)
    ensures StepsLeft(c, t) == StepsLeft(c, s) - 1 >= 0
  {
    hide Timed;
    if ServerEnabled(c, s) && t == ServerStep(c, s) { ServerCounts(c, s); } else { ClientCounts(c, s); }
  }

  lemma ServerCounts(c: Config, s: State)
    requires Inv(c, s) && ServerEnabled(c, s) && Sized(c)
    ensures StepsLeft(c, ServerStep(c, s)) == StepsLeft(c, s) - 1 >= 0
  {
    hide Timed;
    if s.server == SCheck { assert s.got == c.msgSize; }
  }

  lemma ClientCounts(c: Config, s: State)
    requires Inv(c, s) && ClientEnabled(c, s) && Sized(c)
    ensures StepsLeft(c, ClientStep(c, s)) == StepsLeft(c, s) - 1 >= 0
  {
    hide Timed;
  }

  /** A reachable state is stuck exactly when both sides have finished every round. */
  lemma StuckIsFinished(c: Config, s: State)
    requires Inv(c, s) && Sized(c)
    ensures Stuck(c, s) <==> Finished(c, s)
    ensures Stuck(c, s) <==> StepsLeft(c, s) == 0
  {
  }

  lemma {:induction false} RunCounts(c: Config, run: seq<State>, i: nat)
    requires IsRun(c, run) && i < |run| && Sized(c)
    ensures StepsLeft(c, run[i]) == 11 * c.iters + 8 - i >= 0
  {
    hide Inv, Initial, StepsLeft, Sized, ServerStep, ClientStep, ServerEnabled, ClientEnabled;
    if i == 0 {
      FirstState(c, run[0]);
    } else {
      RunCounts(c, run, i - 1);
      RunInv(c, run, i - 1);
      assert Next(c, run[i - 1], run[i - 1 + 1]);
      StepCounts(c, run[i - 1], run[i]);
    }
  }

  /** Whatever the scheduler does, a run is over after exactly `11 * iters + 8` steps, with everything drained. */
  lemma EveryRunFinishes(c: Config, run: seq<State>)
    requires IsRun(c, run) && Sized(c)
    ensures |run| - 1 <= 11 * c.iters + 8
    ensures Stuck(c, run[|run| - 1]) <==> |run| - 1 == 11 * c.iters + 8
    ensures Stuck(c, run[|run| - 1]) <==> Finished(c, run[|run| - 1])
  {
    var n := |run| - 1;
    RunCounts(c, run, n);
    RunInv(c, run, n);
    StuckIsFinished(c, run[n]);
  }

  // ----- a message larger than the socket

  predicate Oversized(c: Config) {
    c.iters > 0 && c.msgSize > c.socketRoom
  }

  /** Whether a short send is answered by another try, for ever: none is partial, or errno says EAGAIN already. */
  predicate Retries(c: Config, s: State) {
    !c.splits || c.socketRoom == 0 || s.again
  }

  /** The server waits for the first message while the client tries to send it. */
  predicate Spinning(c: Config, s: State) {
    && s.pipe1 == 0 && s.pipe2 == 0 && s.sIdx == 0 && s.cIdx == 0 && s.diffs == []
    && s.server in {SAccept, STest, SRead} && s.conn == (if s.server == SAccept then Pending else Accepted)
    && (s.client == CSend || (s.client == CTest && s.queued == 0)) && s.queued <= c.socketRoom
  }

  /** Part of the first message was sent for the whole: the server will find it short. */
  predicate Doomed(c: Config, s: State) {
    && s.sIdx == 0 && s.cIdx == 0 && s.diffs == [] && s.pipe1 == 0
    && (s.conn == (if s.server == SAccept then Pending else Accepted))
    && match s.client
       case CTest | CSend => s.pipe2 == 0 && s.queued == 0 && s.server in {SAccept, STest, SRead}
       case CWrite => s.pipe2 == 0 && s.queued == c.socketRoom && s.server in {SAccept, STest, SRead}
       case CRead =>
         if s.pipe2 > 0 then s.pipe2 == 1 && s.queued == c.socketRoom && s.server in {SAccept, STest, SRead}
         else if s.server == SStart || s.server == SRecv then s.queued == c.socketRoom
         else s.got == c.socketRoom && (s.server == SStop || s.server == SCheck)
       case CFailed => s.pipe2 == 0 && s.server == SFailed
       case _ => false
  }

  predicate OversizedInv(c: Config, s: State) {
    if Connecting(s) then Meeting(s)
    else if Retries(c, s) then Spinning(c, s)
    else Doomed(c, s)
  }

  lemma OversizedKeeps(c: Config, s: State, t: State)
    requires Oversized(c) && OversizedInv(c, s) && Next(c, s, t)
    ensures OversizedInv(c, t) && Retries(c, t) == Retries(c, s)
  {
    hide Timed;
  }

  lemma {:induction false} OversizedRun(c: Config, run: seq<State>, i: nat)
    requires Oversized(c) && IsRun(c, run) && i < |run|
    ensures OversizedInv(c, run[i]) && Retries(c, run[i]) == Retries(c, run[0])
  {
    if i == 0 {
    } else {
      OversizedRun(c, run, i - 1);
      assert Next(c, run[i - 1], run[i - 1 + 1]);
      OversizedKeeps(c, run[i - 1], run[i]);
    }
  }

  lemma OversizedNeverFinishes(c: Config, run: seq<State>, i: nat)
    requires Oversized(c) && IsRun(c, run) && i < |run|
    ensures !Finished(c, run[i]) && run[i].diffs == []
  {
    OversizedRun(c, run, i);
  }

  /** If short sends are retried the run never ends, and the server never gets to its receive. */
  lemma OversizedSpins(c: Config, run: seq<State>, i: nat)
    requires Oversized(c) && IsRun(c, run) && i < |run| && c.capacity > 0 && Retries(c, run[0])
    ensures !Stuck(c, run[i]) && run[i].server !in {SStart, SRecv, SStop, SCheck, SFailed}
    ensures run[i].client == CSend ==> ClientStep(c, run[i]).client == CSend
  {
    OversizedRun(c, run, i);
  }

  lemma DoomedCounts(c: Config, s: State, t: State)
    requires Oversized(c) && OversizedInv(c, s) && !Retries(c, s) && Next(c, s, t)
    ensures StepsLeft(c, t) == StepsLeft(c, s) - 1
  {
    hide Timed;
  }

  lemma DoomedEnds(c: Config, s: State)
    requires Oversized(c) && OversizedInv(c, s) && !Retries(c, s) && c.capacity > 0
    ensures Stuck(c, s) <==> s.server == SFailed && s.client == CFailed
    ensures Stuck(c, s) <==> StepsLeft(c, s) == 11 * c.iters - 6
    ensures StepsLeft(c, s) >= 11 * c.iters - 6
  {
    hide Timed;
  }

  lemma {:induction false} DoomedRun(c: Config, run: seq<State>, i: nat)
    requires Oversized(c) && IsRun(c, run) && i < |run| && !Retries(c, run[0])
    ensures StepsLeft(c, run[i]) == 11 * c.iters + 8 - i
  {
    hide OversizedInv, Retries, Oversized, ServerStep, ClientStep, ServerEnabled, ClientEnabled;
    if i == 0 {
    } else {
      DoomedRun(c, run, i - 1);
      OversizedRun(c, run, i - 1);
      assert Next(c, run[i - 1], run[i - 1 + 1]);
      DoomedCounts(c, run[i - 1], run[i]);
    }
  }

  /**
   If a short send is taken for a whole one, every run ends after exactly 14 steps in the
   server's error path: the size check fails, the client is killed and nothing is recorded.
   */
  lemma OversizedFails(c: Config, run: seq<State>)
    requires Oversized(c) && IsRun(c, run) && c.capacity > 0 && !Retries(c, run[0])
    ensures |run| - 1 <= 14
    ensures var s := run[|run| - 1];
            && (Stuck(c, s) <==> |run| - 1 == 14)
            && (Stuck(c, s) <==> s.server == SFailed && s.client == CFailed)
  {
    var n := |run| - 1;
    OversizedRun(c, run, n);
    DoomedRun(c, run, n);
    DoomedEnds(c, run[n]);
  }

  /** Some run finishes exactly when the message fits in the socket or there is none to send; splitting is no help. */
  lemma FinishesExactly(c: Config)
    requires c.capacity > 0 && c.msgSize > 0
    ensures (exists run :: IsRun(c, run) && Finished(c, run[|run| - 1])) <==> c.iters == 0 || c.msgSize <= c.socketRoom
  {
    if Sized(c) {
      var start := [State(SListen, CFirstRead, 0, 0, 0, 0, Closed, 0, 0, 0, 0, 0, [], false)];
      var run := Complete(c, start);
      assert IsRun(c, run) && Finished(c, run[|run| - 1]);
    } else {
      forall run | IsRun(c, run) ensures !Finished(c, run[|run| - 1]) {
        OversizedNeverFinishes(c, run, |run| - 1);
      }
    }
  }

  /** Any run can be extended until it is finished. */
  lemma {:induction false} Complete(c: Config, run: seq<State>) returns (full: seq<State>)
    requires IsRun(c, run) && Sized(c)
    ensures IsRun(c, full) && run <= full && Finished(c, full[|full| - 1])
    decreases StepsLeft(c, run[|run| - 1])
  {
    hide Inv, Finished, StepsLeft, ServerStep, ClientStep, ServerEnabled, ClientEnabled;
    var s := run[|run| - 1];
    RunInv(c, run, |run| - 1);
    StuckIsFinished(c, s);
    if Stuck(c, s) {
      full := run;
    } else {
      var t := if ServerEnabled(c, s) then ServerStep(c, s) else ClientStep(c, s);
      StepCounts(c, s, t);
      var longer := run + [t];
      assert forall i :: 0 <= i < |longer| - 1 ==> Next(c, longer[i], longer[i + 1]);
      full := Complete(c, longer);
    }
  }

  // ----- the two processes run

  lemma WhoRecords(c: Config, s: State)
    requires Inv(c, s) && Sized(c)
    ensures |s.diffs| <= c.iters
    ensures s.server == SCheck ==> s.got == c.msgSize && |s.diffs| == s.sIdx < c.iters
    ensures ServerEnabled(c, s) && s.server == SCheck ==> ServerStep(c, s).diffs == s.diffs + [s.tend - s.tstart]
    ensures ServerEnabled(c, s) && s.server != SCheck ==> ServerStep(c, s).diffs == s.diffs
    ensures ClientEnabled(c, s) ==> ClientStep(c, s).diffs == s.diffs
    ensures s.server == SDone ==> |s.diffs| == c.iters
  {
  }

  lemma FinishedDiffs(c: Config, s: State)
    requires Finished(c, s)
    ensures s.diffs == seq(c.iters, _ => RECEIVE_TIME)
  {
  }

  /** Runs server and client under an arbitrary scheduler, filling the array of intervals in place. */
  method RunBoth(c: Config, prefersServer: nat -> bool) returns (diffs: array<int>, final: State, steps: nat)
    requires Sized(c)
    ensures Finished(c, final) && steps == 11 * c.iters + 8
    ensures diffs[..] == seq(c.iters, _ => RECEIVE_TIME)
  {
    hide Inv, Finished, ServerStep, ClientStep, ServerEnabled, ClientEnabled, StepsLeft, Sized;
    diffs := new int[c.iters](_ => 0);
    final := State(SListen, CFirstRead, 0, 0, 0, 0, Closed, 0, 0, 0, 0, 0, [], false);
    FirstState(c, final);
    steps := 0;
    while ServerEnabled(c, final) || ClientEnabled(c, final)
      invariant Inv(c, final) && StepsLeft(c, final) == 11 * c.iters + 8 - steps >= 0
      invariant diffs.Length == c.iters && |final.diffs| <= c.iters && diffs[..|final.diffs|] == final.diffs
      decreases StepsLeft(c, final)
    {
      WhoRecords(c, final);
      if ServerEnabled(c, final) && (prefersServer(steps) || !ClientEnabled(c, final)) {
        StepCounts(c, final, ServerStep(c, final));
        ServerKeeps(c, final);
        if final.server == SCheck {
          diffs[final.sIdx] := final.tend - final.tstart;
        }
        final := ServerStep(c, final);
      } else {
        StepCounts(c, final, ClientStep(c, final));
        ClientKeeps(c, final);
        final := ClientStep(c, final);
      }
      WhoRecords(c, final);
      steps := steps + 1;
    }
    StuckIsFinished(c, final);
    FinishedDiffs(c, final);
    assert diffs[..] == diffs[..|final.diffs|];
  }

  lemma FirstState(c: Config, s: State)
    requires Initial(s) && Sized(c)
    ensures Inv(c, s) && StepsLeft(c, s) == 11 * c.iters + 8
  {
  }
}
