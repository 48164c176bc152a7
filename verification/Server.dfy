/** Server: any number of Start, Shutdown and Addr calls, interleaved step by step with the serve
    goroutine over one mutex and one channel of one slot. */
module Server {
  import opened Options

  type Thread = nat
  type Address = nat
  type Failure = nat

  datatype StartResult = Started | AlreadyStarted | BindFailed

  datatype AddrResult = Configured | Bound(at: Address)

  datatype DrainResult = Drained | ContextEnded | OtherError

  /** Where a call stands. Each stage is one atomic step of its body. */
  datatype Call =
    | StartLock | StartCheck | StartListen | StartStore(at: Address) | StartSpawn | StartUnlock(start: StartResult)
    | StartReturned(start: StartResult)
    | ShutdownLock | ShutdownRead | ShutdownUnlock(started: bool) | ShutdownBranch(started: bool) | ShutdownDrain
    | ShutdownClose | ShutdownReturned(drained: DrainResult)
    | AddrLock | AddrRead | AddrUnlock(addr: AddrResult) | AddrReturned(addr: AddrResult)

  /** Where a serve goroutine stands: entering http.Serve, inside it, about to send what it returned,
      about to close the channel, done. */
  datatype Routine = Entering | Serving | Sending(failure: Failure) | Closing | Finished

  /** What the calls and the goroutine share. shut is http.Server's own shutdown flag, cut says that
      its Close has cut the connections it tracks. The rest is history: what Addr calls read, in
      order, what was sent on the channel and received from it, how often it was closed, who bound, and
      whether a send on or a close of a closed channel panicked. */
  datatype Shared = Shared(
    mutex: Option<Thread>, listener: Option<Address>, routines: seq<Routine>, buffer: seq<Failure>,
    closed: bool, shut: bool, cut: bool,
    addrs: seq<AddrResult>, sent: seq<Failure>, received: seq<Failure>, closes: nat,
    winner: Option<Thread>, panicked: bool)

  datatype State = State(shared: Shared, calls: map<Thread, Call>)

  const INITIAL := State(Shared(None, None, [], [], false, false, false, [], [], [], 0, None, false), map[])

  /** What the environment decides in a step. */
  datatype Choice = BindOk(at: Address) | BindFails | DrainEnds(drained: DrainResult)
                  | ServeFails(failure: Failure) | NoChoice

  datatype Action =
    | Invoke(thread: Thread, call: Call)
    | Advance(thread: Thread, choice: Choice)
    | Run(routine: nat, choice: Choice)
    | Receive

  predicate IsEntry(c: Call) {
    c == StartLock || c == ShutdownLock || c == AddrLock
  }

  datatype Moved = Moved(shared: Shared, call: Call)

  /** Taking the mutex, or waiting for it. */
  function Lock(s: Shared, t: Thread, waiting: Call, inside: Call): Moved {
    if s.mutex.None? then Moved(s.(mutex := Some(t)), inside) else Moved(s, waiting)
  }

  /** One step of a call; a blocked or finished one stays where it is. */
  function StepStart(s: Shared, t: Thread, c: Call, choice: Choice): Moved {
    match c
    case StartLock => Lock(s, t, c, StartCheck)
    case StartCheck => Moved(s, if s.listener.Some? then StartUnlock(AlreadyStarted) else StartListen)
    case StartListen =>
      Moved(s, if choice.BindOk? then StartStore(choice.at)
               else if choice.BindFails? then StartUnlock(BindFailed) else c)
    case StartStore(at) => Moved(s.(listener := Some(at), winner := Some(t)), StartSpawn)
    case StartSpawn => Moved(s.(routines := s.routines + [Entering]), StartUnlock(Started))
    case StartUnlock(r) => Moved(s.(mutex := None), StartReturned(r))
    case _ => Moved(s, c)
  }

  function StepShutdown(s: Shared, t: Thread, c: Call, choice: Choice): Moved {
    match c
    case ShutdownLock => Lock(s, t, c, ShutdownRead)
    case ShutdownRead => Moved(s, ShutdownUnlock(s.listener.Some?))
    case ShutdownUnlock(started) => Moved(s.(mutex := None), ShutdownBranch(started))
    case ShutdownBranch(started) =>
      if started then Moved(s.(shut := true), ShutdownDrain) else Moved(s, ShutdownReturned(Drained))
    case ShutdownDrain =>
      Moved(s, if !choice.DrainEnds? then c
               else if choice.drained == ContextEnded then ShutdownClose else ShutdownReturned(choice.drained))
    case ShutdownClose => Moved(s.(shut := true, cut := true), ShutdownReturned(ContextEnded))
    case _ => Moved(s, c)
  }

  function StepAddr(s: Shared, t: Thread, c: Call): Moved {
    match c
    case AddrLock => Lock(s, t, c, AddrRead)
    case AddrRead =>
      var r := if s.listener.Some? then Bound(s.listener.value) else Configured;
      Moved(s.(addrs := s.addrs + [r]), AddrUnlock(r))
    case AddrUnlock(r) => Moved(s.(mutex := None), AddrReturned(r))
    case _ => Moved(s, c)
  }

  predicate OfStart(c: Call) {
    c.StartLock? || c.StartCheck? || c.StartListen? || c.StartStore? || c.StartSpawn?
    || c.StartUnlock? || c.StartReturned?
  }

  predicate OfAddr(c: Call) {
    c.AddrLock? || c.AddrRead? || c.AddrUnlock? || c.AddrReturned?
  }

  function StepCall(s: Shared, t: Thread, c: Call, choice: Choice): Moved {
    if OfStart(c) then StepStart(s, t, c, choice)
    else if OfAddr(c) then StepAddr(s, t, c)
    else StepShutdown(s, t, c, choice)
  }

  /** One step of a serve goroutine. http.Serve returns ErrServerClosed once the server is shut, and a
      failure only before; entering it can fail at any time. */
  function StepRoutine(s: Shared, i: nat, choice: Choice): Shared
    requires i < |s.routines|
  {
    match s.routines[i]
    case Entering =>
      s.(routines := s.routines[i := if choice.ServeFails? then Sending(choice.failure)
                                   else if s.shut then Closing else Serving])
    case Serving =>
      s.(routines := s.routines[i := if s.shut then Closing
                                   else if choice.ServeFails? then Sending(choice.failure) else Serving])
    case Sending(e) =>
      if s.closed then s.(panicked := true)
      else if |s.buffer| == 0 then s.(buffer := [e], sent := s.sent + [e], routines := s.routines[i := Closing])
      else s
    case Closing =>
      if s.closed then s.(panicked := true)
      else s.(closed := true, closes := s.closes + 1, routines := s.routines[i := Finished])
    case Finished => s
  }

  /** A receive on the channel; on an empty one it waits, or finds it closed. */
  function Take(s: Shared): Shared {
    if s.buffer == [] then s else s.(buffer := s.buffer[1..], received := s.received + [s.buffer[0]])
  }

  function Step(s: State, a: Action): State {
    match a
    case Invoke(t, c) => if t !in s.calls && IsEntry(c) then s.(calls := s.calls[t := c]) else s
    case Advance(t, choice) =>
      if t !in s.calls then s
      else var m := StepCall(s.shared, t, s.calls[t], choice); State(m.shared, s.calls[t := m.call])
    case Run(i, choice) => if i < |s.shared.routines| then s.(shared := StepRoutine(s.shared, i, choice)) else s
    case Receive => s.(shared := Take(s.shared))
  }

  function Exec(s: State, run: seq<Action>): State {
    if run == [] then s else Step(Exec(s, run[..|run| - 1]), run[|run| - 1])
  }

  // ---------------------------------------------------------------- the invariant

  predicate InCritical(c: Call) {
    c.StartCheck? || c.StartListen? || c.StartStore? || c.StartSpawn? || c.StartUnlock?
    || c.ShutdownRead? || c.ShutdownUnlock? || c.AddrRead? || c.AddrUnlock?
  }

  /** The call bound the listener. */
  predicate HasBound(c: Call) {
    c == StartSpawn || c == StartUnlock(Started) || c == StartReturned(Started)
  }

  /** What a call's stage says of the shared state. */
  predicate CallFits(s: Shared, t: Thread, c: Call) {
    && (InCritical(c) <==> s.mutex == Some(t))
    && (HasBound(c) ==> s.winner == Some(t))
    && (c.StartListen? || c.StartStore? ==> s.listener.None?)
    && (c.StartSpawn? ==> s.routines == [])
    && ((c.ShutdownUnlock? || c.ShutdownBranch?) && c.started ==> s.listener.Some?)
    && (c.ShutdownDrain? || c.ShutdownClose? ==> s.listener.Some?)
    && (c == ShutdownReturned(ContextEnded) ==> s.cut)
    && (c == StartUnlock(AlreadyStarted) || c == StartReturned(AlreadyStarted) ==> s.listener.Some?)
  }

  /** The channel follows the one goroutine. */
  predicate ChannelFits(s: Shared) {
    && |s.routines| <= 1
    && (s.closed <==> |s.routines| == 1 && s.routines[0] == Finished)
    && s.closes == (if s.closed then 1 else 0)
    && |s.sent| <= 1 && s.sent == s.received + s.buffer
    && (s.sent != [] ==> |s.routines| == 1 && (s.routines[0] == Closing || s.routines[0] == Finished))
  }

  predicate ListenerFits(s: Shared) {
    && (s.listener.Some? <==> s.winner.Some?)
    && (s.listener.None? ==> s.routines == [] && !s.shut && !s.cut)
    && AddrsFit(s.addrs, s.listener)
  }

  predicate AddrsFit(addrs: seq<AddrResult>, listener: Option<Address>) {
    && (forall i | 0 <= i < |addrs| :: addrs[i].Bound? ==> listener == Some(addrs[i].at))
    && (forall i, j | 0 <= i < j < |addrs| :: addrs[i].Bound? ==> addrs[j] == addrs[i])
  }

  predicate SharedFits(s: Shared) {
    ChannelFits(s) && ListenerFits(s) && !s.panicked
  }

  ghost predicate Inv(s: State) {
    && SharedFits(s.shared)
    && (s.shared.mutex.Some? ==> s.shared.mutex.value in s.calls)
    && (forall t | t in s.calls :: CallFits(s.shared, t, s.calls[t]))
  }

  /** What a call's own step owes: its new stage and all the shared state fit, and the mutex is free,
      its own, or whose it was. */
  ghost predicate MovedFits(s: Shared, t: Thread, m: Moved) {
    && SharedFits(m.shared) && CallFits(m.shared, t, m.call)
    && (m.shared.mutex.None? || m.shared.mutex == Some(t) || m.shared.mutex == s.mutex)
  }

  lemma StartKeeps(s: Shared, t: Thread, c: Call, choice: Choice)
    requires SharedFits(s) && CallFits(s, t, c) && OfStart(c)
    ensures MovedFits(s, t, StepStart(s, t, c, choice))
  {}

  lemma ShutdownKeeps(s: Shared, t: Thread, c: Call, choice: Choice)
    requires SharedFits(s) && CallFits(s, t, c) && !OfStart(c) && !OfAddr(c)
    ensures MovedFits(s, t, StepShutdown(s, t, c, choice))
  {}

  lemma AddrKeeps(s: Shared, t: Thread, c: Call)
    requires SharedFits(s) && CallFits(s, t, c) && OfAddr(c)
    ensures MovedFits(s, t, StepAddr(s, t, c))
  {}

  lemma OtherStartKeeps(s: Shared, t: Thread, c: Call, choice: Choice, u: Thread, d: Call)
    requires SharedFits(s) && CallFits(s, t, c) && CallFits(s, u, d) && u != t && OfStart(c)
    ensures CallFits(StepStart(s, t, c, choice).shared, u, d)
  {}

  lemma OtherKeeps(s: Shared, t: Thread, c: Call, choice: Choice, u: Thread, d: Call)
    requires SharedFits(s) && CallFits(s, t, c) && CallFits(s, u, d) && u != t
    ensures CallFits(StepCall(s, t, c, choice).shared, u, d)
  {
    if OfStart(c) {
      OtherStartKeeps(s, t, c, choice, u, d);
    }
  }

  lemma OthersKeep(s: State, t: Thread, choice: Choice)
    requires Inv(s) && t in s.calls
    ensures var shared := StepCall(s.shared, t, s.calls[t], choice).shared;
            forall u | u in s.calls && u != t :: CallFits(shared, u, s.calls[u])
  {
    forall u | u in s.calls && u != t
      ensures CallFits(StepCall(s.shared, t, s.calls[t], choice).shared, u, s.calls[u])
    {
      OtherKeeps(s.shared, t, s.calls[t], choice, u, s.calls[u]);
    }
  }

  lemma OwnKeeps(s: State, t: Thread, choice: Choice)
    requires Inv(s) && t in s.calls
    ensures MovedFits(s.shared, t, StepCall(s.shared, t, s.calls[t], choice))
  {
    var c := s.calls[t];
    assert CallFits(s.shared, t, c);
    if OfStart(c) {
      StartKeeps(s.shared, t, c, choice);
    } else if OfAddr(c) {
      AddrKeeps(s.shared, t, c);
    } else {
      ShutdownKeeps(s.shared, t, c, choice);
    }
  }

  lemma CallKeeps(s: State, t: Thread, choice: Choice)
    requires Inv(s) && t in s.calls
    ensures Inv(Step(s, Advance(t, choice)))
  {
    OwnKeeps(s, t, choice);
    OthersKeep(s, t, choice);
  }

  /** The goroutine moves neither the mutex nor the listener, and keeps the channel's discipline. */
  lemma RoutineKeeps(s: Shared, i: nat, choice: Choice)
    requires SharedFits(s) && i < |s.routines|
    ensures SharedFits(StepRoutine(s, i, choice))
  {
    RoutineKeepsChannel(s, i, choice);
    RoutineAside(s, i, choice);
  }

  lemma RoutineKeepsChannel(s: Shared, i: nat, choice: Choice)
    requires ChannelFits(s) && !s.panicked && i < |s.routines|
    ensures ChannelFits(StepRoutine(s, i, choice)) && !StepRoutine(s, i, choice).panicked
  {}

  lemma RoutineLeavesCalls(s: Shared, i: nat, choice: Choice)
    requires i < |s.routines|
    ensures forall t, c | CallFits(s, t, c) :: CallFits(StepRoutine(s, i, choice), t, c)
  {
    RoutineAside(s, i, choice);
  }

  lemma StepKeeps(s: State, a: Action)
    requires Inv(s)
    ensures Inv(Step(s, a))
  {
    match a
    case Invoke(t, c) =>
    case Advance(t, choice) =>
      if t in s.calls {
        CallKeeps(s, t, choice);
      }
    case Run(i, choice) =>
      if i < |s.shared.routines| {
        RunKeeps(s, i, choice);
      }
    case Receive => ReceiveKeeps(s);
  }

  lemma ReceiveKeeps(s: State)
    requires Inv(s)
    ensures Inv(Step(s, Receive))
  {
    TakeKeeps(s.shared);
  }

  lemma RunKeeps(s: State, i: nat, choice: Choice)
    requires Inv(s) && i < |s.shared.routines|
    ensures Inv(Step(s, Run(i, choice)))
  {
    RoutineKeeps(s.shared, i, choice);
    RoutineLeavesCalls(s.shared, i, choice);
    RoutineAside(s.shared, i, choice);
  }

  lemma {:induction false} EveryRunKeeps(run: seq<Action>)
    ensures Inv(Exec(INITIAL, run))
  {
    if run != [] {
      EveryRunKeeps(run[..|run| - 1]);
      StepKeeps(Exec(INITIAL, run[..|run| - 1]), run[|run| - 1]);
    }
  }

  // ---------------------------------------------------------------- what every run keeps

  /** Over every interleaving: at most one Start succeeds and at most one goroutine runs. */
  lemma OneStartSucceeds(run: seq<Action>, t: Thread, u: Thread)
    ensures var s := Exec(INITIAL, run);
            && |s.shared.routines| <= 1
            && (t in s.calls && s.calls[t] == StartReturned(Started) ==> s.shared.listener.Some?)
            && (t in s.calls && u in s.calls && s.calls[t] == StartReturned(Started) == s.calls[u] ==> t == u)
  {
    EveryRunKeeps(run);
    var s := Exec(INITIAL, run);
    assert t in s.calls ==> CallFits(s.shared, t, s.calls[t]);
    assert u in s.calls ==> CallFits(s.shared, u, s.calls[u]);
  }

  /** The channel takes at most one value, a send never blocks, it is closed at most once, when the
      goroutine ends, and never sent to or closed after that. */
  lemma ChannelIsSound(run: seq<Action>, choice: Choice)
    ensures var s := Exec(INITIAL, run).shared;
            && |s.sent| <= 1 && s.closes <= 1 && !s.panicked
            && s.sent == s.received + s.buffer && Take(s).received == s.sent
            && (s.closed <==> s.routines == [Finished])
            && (forall i | 0 <= i < |s.routines| && (s.routines[i].Sending? || s.routines[i] == Closing) ::
                  StepRoutine(s, i, choice).routines[i] != s.routines[i])
  {
    EveryRunKeeps(run);
    var s := Exec(INITIAL, run).shared;
    ChannelNow(s);
    forall i | 0 <= i < |s.routines| && (s.routines[i].Sending? || s.routines[i] == Closing)
      ensures StepRoutine(s, i, choice).routines[i] != s.routines[i]
    {
      RoutineMoves(s, i, choice);
    }
  }

  lemma ChannelNow(s: Shared)
    requires SharedFits(s)
    ensures |s.sent| <= 1 && s.closes <= 1 && !s.panicked && (s.closed <==> s.routines == [Finished])
    ensures s.sent == s.received + s.buffer && Take(s).received == s.sent
  {
    if s.buffer != [] {
      assert s.received == [] && s.buffer == [s.buffer[0]];
    }
  }

  lemma TakeKeeps(s: Shared)
    requires SharedFits(s)
    ensures SharedFits(Take(s))
    ensures forall t, c | CallFits(s, t, c) :: CallFits(Take(s), t, c)
  {
    if s.buffer != [] {
      assert s.received == [] && s.buffer == [s.buffer[0]];
    }
  }

  lemma RoutineMoves(s: Shared, i: nat, choice: Choice)
    requires SharedFits(s) && i < |s.routines| && (s.routines[i].Sending? || s.routines[i] == Closing)
    ensures StepRoutine(s, i, choice).routines[i] != s.routines[i]
  {}

  /** Once an Addr call reads a bound address, every later one reads the same. */
  lemma AddrNeverReverts(run: seq<Action>, i: nat, j: nat)
    ensures var s := Exec(INITIAL, run).shared;
            && (i < j < |s.addrs| && s.addrs[i].Bound? ==> s.addrs[j] == s.addrs[i])
            && (i < |s.addrs| && s.addrs[i].Bound? ==> s.listener == Some(s.addrs[i].at))
  {
    EveryRunKeeps(run);
  }

  /** Two calls are never both inside the mutex, and its holder never waits for another thread: every
      step it takes but the bind, which the environment ends, moves it. */
  lemma MutexIsSound(run: seq<Action>, t: Thread, u: Thread, choice: Choice)
    requires var s := Exec(INITIAL, run); t in s.calls && InCritical(s.calls[t])
    ensures var s := Exec(INITIAL, run);
            && (u in s.calls && InCritical(s.calls[u]) ==> t == u)
            && (s.calls[t] != StartListen ==> StepCall(s.shared, t, s.calls[t], choice).call != s.calls[t])
  {
    EveryRunKeeps(run);
    var s := Exec(INITIAL, run);
    assert CallFits(s.shared, t, s.calls[t]);
    assert u in s.calls ==> CallFits(s.shared, u, s.calls[u]);
  }

  function StartSteps(t: Thread, at: Address): seq<Action> {
    [Invoke(t, StartLock), Advance(t, NoChoice), Advance(t, NoChoice), Advance(t, BindOk(at)),
     Advance(t, NoChoice), Advance(t, NoChoice), Advance(t, NoChoice)]
  }

  lemma {:induction false} ExecConcat(s: State, a: seq<Action>, b: seq<Action>)
    ensures Exec(s, a + b) == Exec(Exec(s, a), b)
    decreases |b|
  {
    if b == [] {
      assert a + b == a;
    } else {
      assert (a + b)[..|a + b| - 1] == a + b[..|b| - 1];
      ExecConcat(s, a, b[..|b| - 1]);
    }
  }

  lemma {:induction false} ExecTail(s: State, run: seq<Action>)
    requires run != []
    ensures Exec(s, run) == Exec(Step(s, run[0]), run[1..])
  {
    assert run == [run[0]] + run[1..];
    ExecConcat(s, [run[0]], run[1..]);
    assert [run[0]][..0] == [];
    assert Exec(s, [run[0]]) == Step(Exec(s, []), run[0]);
  }

  /** How many steps a call still takes inside the mutex, when no bind succeeds. */
  function StepsInside(c: Call): nat {
    match c
    case StartCheck => 3
    case StartListen => 2
    case StartUnlock(_) => 1
    case ShutdownRead => 2
    case ShutdownUnlock(_) => 1
    case AddrRead => 2
    case AddrUnlock(_) => 1
    case _ => 0
  }

  lemma HolderMoves(s: State, t: Thread)
    requires Inv(s) && s.shared.listener.None? && s.shared.mutex == Some(t) && !s.calls[t].StartStore?
    ensures var s' := Step(s, Advance(t, BindFails));
            && Inv(s') && s'.calls.Keys == s.calls.Keys && s'.shared.listener.None?
            && (s'.shared.mutex.None?
                || (s'.shared.mutex == Some(t) && !s'.calls[t].StartStore?
                    && StepsInside(s'.calls[t]) < StepsInside(s.calls[t])))
  {
    StepKeeps(s, Advance(t, BindFails));
    assert CallFits(s.shared, t, s.calls[t]);
  }

  /** While nothing is bound, a holder whose bind fails gives the mutex back, still with nothing bound. */
  lemma {:induction false} HolderReleases(s: State, t: Thread) returns (more: seq<Action>)
    requires Inv(s) && s.shared.listener.None? && s.shared.mutex == Some(t) && !s.calls[t].StartStore?
    ensures var s' := Exec(s, more);
            Inv(s') && s'.calls.Keys == s.calls.Keys && s'.shared.listener.None? && s'.shared.mutex.None?
    decreases StepsInside(s.calls[t])
  {
    var a := Advance(t, BindFails);
    var s1 := Step(s, a);
    HolderMoves(s, t);
    more := [];
    if s1.shared.mutex.Some? {
      more := HolderReleases(s1, t);
    }
    assert ([a] + more)[1..] == more;
    ExecTail(s, [a] + more);
    more := [a] + more;
  }

  lemma {:induction false} UnusedThread(ts: set<Thread>) returns (t: Thread)
    ensures forall u | u in ts :: u < t
  {
    t := 0;
    if ts != {} {
      var u :| u in ts;
      var rest := UnusedThread(ts - {u});
      t := if u < rest then rest else u + 1;
      assert ts == (ts - {u}) + {u};
    }
  }

  /** The call succeeded: it returned nil over the listener it bound and the one goroutine. */
  predicate Succeeded(s: State, t: Thread) {
    t in s.calls && s.calls[t] == StartReturned(Started) && s.shared.listener.Some?
    && s.shared.routines == [Entering] && s.shared.mutex.None?
  }

  /** Nothing but a bind uses the server up: in every state without a listener, after whatever failed
      binds and early Shutdowns, the server is untouched, and some continuation leads to a Start that
      succeeds: a new call at any address, unless another has bound one and is about to store it. */
  lemma StaysStartable(run: seq<Action>, at: Address) returns (more: seq<Action>, t: Thread)
    requires Exec(INITIAL, run).shared.listener.None?
    ensures var s := Exec(INITIAL, run).shared; s.routines == [] && s.buffer == [] && !s.closed && !s.shut
    ensures var s, s' := Exec(INITIAL, run), Exec(INITIAL, run + more);
            && Succeeded(s', t)
            && (t in s.calls ==> s.calls[t].StartStore?)
            && (t !in s.calls ==> s'.shared.listener == Some(at))
  {
    EveryRunKeeps(run);
    var s := Exec(INITIAL, run);
    if s.shared.mutex.Some? && s.calls[s.shared.mutex.value].StartStore? {
      t := s.shared.mutex.value;
      more := FinishSteps(t);
      StoreFinishes(s, t);
    } else {
      t := UnusedThread(s.calls.Keys);
      more := [];
      if s.shared.mutex.Some? {
        more := HolderReleases(s, s.shared.mutex.value);
      }
      ExecConcat(s, more, StartSteps(t, at));
      StartRuns(Exec(s, more), t, at);
      more := more + StartSteps(t, at);
    }
    ExecConcat(INITIAL, run, more);
  }

  function FinishSteps(t: Thread): seq<Action> {
    [Advance(t, NoChoice), Advance(t, NoChoice), Advance(t, NoChoice)]
  }

  lemma StoreFinishes(s: State, t: Thread)
    requires Inv(s) && s.shared.listener.None? && t in s.calls && s.calls[t].StartStore?
    ensures Succeeded(Exec(s, FinishSteps(t)), t)
  {
    var a, at := FinishSteps(t), s.calls[t].at;
    var s1 := StartAdvances(s, t, StartStore(at), a);
    var s2 := StartAdvances(s1, t, StartSpawn, a[1..]);
    var s3 := StartAdvances(s2, t, StartUnlock(Started), a[1..][1..]);
  }

  lemma StartRuns(s: State, t: Thread, at: Address)
    requires s.shared.listener.None? && s.shared.mutex.None? && t !in s.calls
    ensures var s' := Exec(s, StartSteps(t, at));
            t in s'.calls && s'.calls[t] == StartReturned(Started) && s'.shared.listener == Some(at)
            && s'.shared.routines == s.shared.routines + [Entering] && s'.shared.mutex.None?
  {
    var a := StartSteps(t, at);
    ExecTail(s, a);
    var s2 := StartAdvances(Step(s, a[0]), t, StartLock, a[1..]);
    var s3 := StartAdvances(s2, t, StartCheck, a[1..][1..]);
    var s4 := StartAdvances(s3, t, StartListen, a[1..][1..][1..]);
    var s5 := StartAdvances(s4, t, StartStore(at), a[1..][1..][1..][1..]);
    var s6 := StartAdvances(s5, t, StartSpawn, a[1..][1..][1..][1..][1..]);
    var s7 := StartAdvances(s6, t, StartUnlock(Started), a[1..][1..][1..][1..][1..][1..]);
  }

  /** One step of the Start call of t, at the head of a run. */
  lemma StartAdvances(s: State, t: Thread, c: Call, run: seq<Action>) returns (s': State)
    requires run != [] && run[0].Advance? && run[0].thread == t && t in s.calls && s.calls[t] == c && OfStart(c)
    ensures var m := StepStart(s.shared, t, c, run[0].choice); s' == State(m.shared, s.calls[t := m.call])
    ensures Exec(s, run) == Exec(s', run[1..])
  {
    ExecTail(s, run);
    s' := Step(s, run[0]);
  }

  lemma ListenerMoves(s: Shared, t: Thread, c: Call, choice: Choice)
    requires CallFits(s, t, c)
    ensures var m := StepCall(s, t, c, choice);
            m.shared.listener == s.listener || (s.listener.None? && c.StartStore? && m.shared.listener == Some(c.at))
  {
    if OfStart(c) {
      StartListener(s, t, c, choice);
    } else if OfAddr(c) {
      AddrOnward(s, t, c);
    } else {
      ShutdownOnward(s, t, c, choice);
    }
  }

  lemma StartListener(s: Shared, t: Thread, c: Call, choice: Choice)
    ensures StepStart(s, t, c, choice).shared.listener == if c.StartStore? then Some(c.at) else s.listener
  {}

  predicate Stored(s: State, a: Action, s': State) {
    s.shared.listener.None? && a.Advance? && a.thread in s.calls && s.calls[a.thread].StartStore?
    && s'.shared.listener == Some(s.calls[a.thread].at)
  }

  lemma ListenerStep(s: State, a: Action)
    requires Inv(s)
    ensures var s' := Step(s, a); s'.shared.listener == s.shared.listener || Stored(s, a, s')
  {
    if a.Advance? && a.thread in s.calls {
      assert CallFits(s.shared, a.thread, s.calls[a.thread]);
      ListenerMoves(s.shared, a.thread, s.calls[a.thread], a.choice);
    }
  }

  /** A listener is there exactly when some Start bound one: a failed bind, a refused Start, a Shutdown
      and an Addr leave it, and a stored one is never replaced. */
  lemma ListenerOnlyByBinding(run: seq<Action>, a: Action)
    ensures var s, s' := Exec(INITIAL, run), Step(Exec(INITIAL, run), a);
            s'.shared.listener == s.shared.listener || Stored(s, a, s')
  {
    EveryRunKeeps(run);
    ListenerStep(Exec(INITIAL, run), a);
  }

  // ---------------------------------------------------------------- what a Shutdown does

  /** The Shutdown of t, begun over a stored listener, has not yet passed http.Server.Shutdown, or the
      server is shut. */
  predicate WillShut(s: State, t: Thread) {
    && t in s.calls && s.shared.listener.Some?
    && match s.calls[t]
       case ShutdownLock => true
       case ShutdownRead => true
       case ShutdownUnlock(started) => started
       case ShutdownBranch(started) => started
       case ShutdownDrain => s.shared.shut
       case ShutdownClose => s.shared.shut
       case ShutdownReturned(_) => s.shared.shut
       case _ => false
  }

  /** What no step of a call takes back, and what none touches. */
  predicate Onward(s: Shared, s': Shared) {
    && (s.shut ==> s'.shut) && (s.cut ==> s'.cut) && (s.listener.Some? ==> s'.listener.Some?)
    && s'.sent == s.sent && s'.closed == s.closed
  }

  lemma StartOnward(s: Shared, t: Thread, c: Call, choice: Choice)
    ensures var s' := StepStart(s, t, c, choice).shared;
            Onward(s, s') && s'.routines == if c == StartSpawn then s.routines + [Entering] else s.routines
  {}

  lemma ShutdownOnward(s: Shared, t: Thread, c: Call, choice: Choice)
    ensures var s' := StepShutdown(s, t, c, choice).shared;
            Onward(s, s') && s'.routines == s.routines && s'.listener == s.listener
  {}

  lemma AddrOnward(s: Shared, t: Thread, c: Call)
    ensures var s' := StepAddr(s, t, c).shared;
            Onward(s, s') && s'.routines == s.routines && s'.listener == s.listener
  {}

  lemma CallOnward(s: Shared, t: Thread, c: Call, choice: Choice)
    ensures var s' := StepCall(s, t, c, choice).shared;
            Onward(s, s') && s'.routines == if c == StartSpawn then s.routines + [Entering] else s.routines
  {
    if OfStart(c) {
      StartOnward(s, t, c, choice);
    } else if OfAddr(c) {
      AddrOnward(s, t, c);
    } else {
      ShutdownOnward(s, t, c, choice);
    }
  }

  lemma RoutineAside(s: Shared, i: nat, choice: Choice)
    requires i < |s.routines|
    ensures var s' := StepRoutine(s, i, choice);
            && s'.shut == s.shut && s'.cut == s.cut && s'.listener == s.listener && s'.winner == s.winner
            && s'.mutex == s.mutex && |s'.routines| == |s.routines| && s'.addrs == s.addrs
  {
    match s.routines[i]
    case Entering =>
    case Serving =>
    case Sending(_) =>
    case Closing =>
    case Finished =>
  }

  lemma ShutStays(s: State, a: Action)
    ensures var s' := Step(s, a).shared;
            && (s.shared.shut ==> s'.shut) && (s.shared.cut ==> s'.cut)
            && (s.shared.listener.Some? ==> s'.listener.Some?)
  {
    match a
    case Advance(t, choice) =>
      if t in s.calls {
        CallOnward(s.shared, t, s.calls[t], choice);
      }
    case Run(i, choice) =>
      if i < |s.shared.routines| {
        RoutineAside(s.shared, i, choice);
      }
    case _ =>
  }

  lemma WillShutStays(s: State, t: Thread, a: Action)
    requires WillShut(s, t)
    ensures WillShut(Step(s, a), t)
  {
    ShutStays(s, a);
  }

  /** The k-th step of the run is this one, by t at this stage. */
  ghost predicate Took(run: seq<Action>, k: nat, t: Thread, stage: Call, choice: Choice) {
    && k < |run| && run[k] == Advance(t, choice)
    && var s := Exec(INITIAL, run[..k]); t in s.calls && s.calls[t] == stage
  }

  lemma TookEarlier(run: seq<Action>, k: nat, t: Thread, stage: Call, choice: Choice)
    requires run != [] && Took(run[..|run| - 1], k, t, stage, choice)
    ensures Took(run, k, t, stage, choice)
  {
    assert run[..|run| - 1][..k] == run[..k];
  }

  /** The drain of t ended this way. */
  ghost predicate DrainEnded(run: seq<Action>, t: Thread, drained: DrainResult) {
    exists k :: Took(run, k, t, ShutdownDrain, DrainEnds(drained))
  }

  /** The bind of t failed. */
  ghost predicate BindFailedIn(run: seq<Action>, t: Thread) {
    exists k :: Took(run, k, t, StartListen, BindFails)
  }

  /** What a call's result, or its way to one, says of the run so far. */
  ghost predicate ResultFits(run: seq<Action>, t: Thread, c: Call) {
    match c
    case ShutdownClose => DrainEnded(run, t, ContextEnded)
    case ShutdownReturned(r) =>
      DrainEnded(run, t, r)
      || (r == Drained && exists k, choice :: Took(run, k, t, ShutdownBranch(false), choice))
    case StartUnlock(r) => r == BindFailed ==> BindFailedIn(run, t)
    case StartReturned(r) => r == BindFailed ==> BindFailedIn(run, t)
    case _ => true
  }

  lemma ResultFitsLater(run: seq<Action>, t: Thread, c: Call)
    requires run != [] && ResultFits(run[..|run| - 1], t, c)
    ensures ResultFits(run, t, c)
  {
    var front := run[..|run| - 1];
    forall k, stage, choice | Took(front, k, t, stage, choice)
      ensures Took(run, k, t, stage, choice)
    {
      TookEarlier(run, k, t, stage, choice);
    }
  }

  lemma LastStep(run: seq<Action>, t: Thread, choice: Choice)
    requires run != [] && run[|run| - 1] == Advance(t, choice)
    requires var s := Exec(INITIAL, run[..|run| - 1]); t in s.calls
    ensures Took(run, |run| - 1, t, Exec(INITIAL, run[..|run| - 1]).calls[t], choice)
  {}

  lemma {:induction false} ResultsFit(run: seq<Action>, t: Thread)
    requires t in Exec(INITIAL, run).calls
    ensures ResultFits(run, t, Exec(INITIAL, run).calls[t])
  {
    if run != [] {
      var front, a := run[..|run| - 1], run[|run| - 1];
      var s := Exec(INITIAL, front);
      if t in s.calls {
        ResultsFit(front, t);
        ResultFitsLater(run, t, s.calls[t]);
        if a.Advance? && a.thread == t {
          LastStep(run, t, a.choice);
        }
      }
    }
  }

  /** A failed Start is one whose bind failed, and a refused one found the server started. */
  lemma StartResultIsItsOwn(run: seq<Action>, t: Thread)
    requires var s := Exec(INITIAL, run); t in s.calls && s.calls[t].StartReturned?
    ensures var s := Exec(INITIAL, run);
            && (s.calls[t].start == BindFailed ==> BindFailedIn(run, t))
            && (s.calls[t].start != BindFailed ==> s.shared.listener.Some?)
  {
    EveryRunKeeps(run);
    ResultsFit(run, t);
    var s := Exec(INITIAL, run);
    assert CallFits(s.shared, t, s.calls[t]);
  }

  /** A Shutdown returns what its drain ended with, having cut the connections if that was the end of
      its context, or nil without a drain, having read that nothing was started. */
  lemma ShutdownResultIsItsOwn(run: seq<Action>, t: Thread)
    requires var s := Exec(INITIAL, run); t in s.calls && s.calls[t].ShutdownReturned?
    ensures var s := Exec(INITIAL, run);
            && ResultFits(run, t, s.calls[t])
            && (s.calls[t].drained == ContextEnded ==> s.shared.cut)
  {
    EveryRunKeeps(run);
    ResultsFit(run, t);
    var s := Exec(INITIAL, run);
    assert CallFits(s.shared, t, s.calls[t]);
  }

  /** The Shutdown of t is bound to shut the server, and its end, once there, is its drain's. */
  ghost predicate Shutting(run: seq<Action>, t: Thread) {
    && WillShut(Exec(INITIAL, run), t)
    && match Exec(INITIAL, run).calls[t]
       case ShutdownClose => DrainEnded(run, t, ContextEnded)
       case ShutdownReturned(r) => DrainEnded(run, t, r)
       case _ => true
  }

  lemma DrainEndedLater(run: seq<Action>, t: Thread, r: DrainResult)
    requires run != [] && DrainEnded(run[..|run| - 1], t, r)
    ensures DrainEnded(run, t, r)
  {
    var k :| Took(run[..|run| - 1], k, t, ShutdownDrain, DrainEnds(r));
    TookEarlier(run, k, t, ShutdownDrain, DrainEnds(r));
  }

  lemma ShuttingStays(run: seq<Action>, t: Thread)
    requires run != [] && Shutting(run[..|run| - 1], t)
    ensures Shutting(run, t)
  {
    var front, a := run[..|run| - 1], run[|run| - 1];
    var c := Exec(INITIAL, front).calls[t];
    WillShutStays(Exec(INITIAL, front), t, a);
    if c.ShutdownClose? {
      DrainEndedLater(run, t, ContextEnded);
    } else if c.ShutdownReturned? {
      DrainEndedLater(run, t, c.drained);
    }
    if a.Advance? && a.thread == t {
      LastStep(run, t, a.choice);
    }
  }

  lemma {:induction false} ShuttingKept(run: seq<Action>, t: Thread, more: seq<Action>)
    requires Shutting(run, t)
    ensures Shutting(run + more, t)
  {
    if more == [] {
      assert run + more == run;
    } else {
      ShuttingKept(run, t, more[..|more| - 1]);
      assert (run + more)[..|run + more| - 1] == run + more[..|more| - 1];
      ShuttingStays(run + more, t);
    }
  }

  /** A Shutdown that begins over a stored listener, or has read that the server was started, has shut
      the server when it returns, whatever happens in between, and returns what its drain ended with. */
  lemma ShutdownShuts(run: seq<Action>, t: Thread, more: seq<Action>)
    requires var s := Exec(INITIAL, run);
             t in s.calls && ((s.calls[t] == ShutdownLock && s.shared.listener.Some?)
                             || s.calls[t] == ShutdownBranch(true))
    ensures var s' := Exec(INITIAL, run + more);
            t in s'.calls && (s'.calls[t].ShutdownReturned? ==>
                                s'.shared.shut && DrainEnded(run + more, t, s'.calls[t].drained))
  {
    EveryRunKeeps(run);
    var s := Exec(INITIAL, run);
    assert CallFits(s.shared, t, s.calls[t]);
    ShuttingKept(run, t, more);
  }

  /** A call waits for nothing but the mutex, its bind and its drain: any other step moves it on. */
  lemma CallsMoveOn(s: Shared, t: Thread, c: Call, choice: Choice)
    requires !IsEntry(c) && c != StartListen && c != ShutdownDrain
    requires !c.StartReturned? && !c.ShutdownReturned? && !c.AddrReturned?
    ensures StepCall(s, t, c, choice).call != c
  {}

  lemma CutStep(s: State, a: Action)
    requires Inv(s) && !s.shared.cut && Step(s, a).shared.cut
    ensures a.Advance? && a.thread in s.calls && s.calls[a.thread] == ShutdownClose
  {
    match a
    case Advance(t, choice) =>
      if t in s.calls {
        CutByClose(s.shared, t, s.calls[t], choice);
      }
    case Run(i, choice) =>
      if i < |s.shared.routines| {
        RoutineAside(s.shared, i, choice);
      }
    case _ =>
  }

  lemma CutByClose(s: Shared, t: Thread, c: Call, choice: Choice)
    requires !s.cut && StepCall(s, t, c, choice).shared.cut
    ensures c == ShutdownClose
  {}

  /** The connections are cut only by a Shutdown whose context ended before its drain. */
  lemma {:induction false} CutOnlyByContext(run: seq<Action>) returns (t: Thread)
    requires Exec(INITIAL, run).shared.cut
    ensures DrainEnded(run, t, ContextEnded)
  {
    var front, a := run[..|run| - 1], run[|run| - 1];
    var s := Exec(INITIAL, front);
    EveryRunKeeps(front);
    if s.shared.cut {
      t := CutOnlyByContext(front);
    } else {
      CutStep(s, a);
      t := a.thread;
      ResultsFit(front, t);
    }
    DrainEndedLater(run, t, ContextEnded);
  }

  /** Before a Start has bound, a Shutdown that read so returns nil and shuts nothing. */
  lemma EarlyShutdownIsNoOp(run: seq<Action>, t: Thread, choice: Choice)
    requires var s := Exec(INITIAL, run); t in s.calls && s.calls[t] == ShutdownBranch(false)
    ensures var s, s' := Exec(INITIAL, run), Step(Exec(INITIAL, run), Advance(t, choice));
            s'.shared == s.shared && s'.calls[t] == ShutdownReturned(Drained)
  {}

  // ---------------------------------------------------------------- what the goroutine does

  /** A stored listener has its goroutine, or the Start that stored it is about to spawn it. */
  ghost predicate Spawned(s: State) {
    s.shared.winner.Some? ==>
      && s.shared.winner.value in s.calls && HasBound(s.calls[s.shared.winner.value])
      && (s.shared.routines == [] ==> s.calls[s.shared.winner.value] == StartSpawn)
  }

  /** The winner's own step, and anybody else's. */
  lemma WinnerSteps(s: Shared, t: Thread, c: Call, choice: Choice)
    requires SharedFits(s) && CallFits(s, t, c) && s.winner == Some(t) && HasBound(c)
    requires s.routines == [] ==> c == StartSpawn
    ensures var m := StepStart(s, t, c, choice);
            HasBound(m.call) && m.shared.winner == Some(t) && m.shared.routines != []
  {}

  lemma OtherSteps(s: Shared, t: Thread, c: Call, choice: Choice)
    requires SharedFits(s) && CallFits(s, t, c) && s.winner != Some(t)
    ensures var m := StepCall(s, t, c, choice);
            && m.shared.routines == s.routines
            && (m.shared.winner == s.winner || (m.shared.winner == Some(t) && m.call == StartSpawn))
  {
    CallOnward(s, t, c, choice);
  }

  lemma SpawnedStays(s: State, a: Action)
    requires Inv(s) && Spawned(s)
    ensures Spawned(Step(s, a))
  {
    match a
    case Advance(t, choice) =>
      if t in s.calls {
        assert CallFits(s.shared, t, s.calls[t]);
        if s.shared.winner == Some(t) {
          WinnerSteps(s.shared, t, s.calls[t], choice);
        } else {
          OtherSteps(s.shared, t, s.calls[t], choice);
        }
      }
    case Run(i, choice) =>
      if i < |s.shared.routines| {
        RoutineAside(s.shared, i, choice);
      }
    case _ =>
  }

  lemma {:induction false} EveryRunSpawns(run: seq<Action>)
    ensures Spawned(Exec(INITIAL, run))
  {
    if run != [] {
      EveryRunSpawns(run[..|run| - 1]);
      EveryRunKeeps(run[..|run| - 1]);
      SpawnedStays(Exec(INITIAL, run[..|run| - 1]), run[|run| - 1]);
    }
  }

  /** A Start that succeeded has its goroutine. */
  lemma StartedServes(run: seq<Action>, t: Thread)
    requires var s := Exec(INITIAL, run); t in s.calls && s.calls[t] == StartReturned(Started)
    ensures var s := Exec(INITIAL, run).shared; s.listener.Some? && s.winner == Some(t) && |s.routines| == 1
  {
    EveryRunKeeps(run);
    EveryRunSpawns(run);
    var s := Exec(INITIAL, run);
    assert CallFits(s.shared, t, s.calls[t]);
  }

  function StepsToClose(r: Routine): nat {
    if r.Finished? then 0 else if r.Closing? then 1 else 2
  }

  lemma RoutineNearsClose(s: State)
    requires Inv(s) && s.shared.shut && |s.shared.routines| == 1 && !s.shared.closed
    ensures var s' := Step(s, Run(0, NoChoice));
            && Inv(s') && s'.shared.shut && |s'.shared.routines| == 1
            && StepsToClose(s'.shared.routines[0]) < StepsToClose(s.shared.routines[0])
  {
    StepKeeps(s, Run(0, NoChoice));
  }

  lemma {:induction false} RoutineCloses(s: State) returns (more: seq<Action>)
    requires Inv(s) && s.shared.shut && |s.shared.routines| == 1
    ensures Exec(s, more).shared.closed && forall a | a in more :: a == Run(0, NoChoice)
    decreases StepsToClose(s.shared.routines[0])
  {
    more := [];
    if !s.shared.closed {
      RoutineNearsClose(s);
      var a := Run(0, NoChoice);
      var rest := RoutineCloses(Step(s, a));
      more := [a] + rest;
      assert more[1..] == rest;
      ExecTail(s, more);
    }
  }

  /** Once the server is shut, some continuation closes the channel: the goroutine's own steps, after
      the Start that bound has spawned it. */
  lemma ShutCloses(run: seq<Action>) returns (more: seq<Action>)
    requires Exec(INITIAL, run).shared.shut
    ensures Exec(INITIAL, run + more).shared.closed
  {
    EveryRunKeeps(run);
    EveryRunSpawns(run);
    var s := Exec(INITIAL, run);
    var spawn: seq<Action> := [];
    if s.shared.routines == [] {
      var t := s.shared.winner.value;
      spawn := [Advance(t, NoChoice)];
      StepKeeps(s, Advance(t, NoChoice));
      assert spawn[..0] == [];
      assert Exec(s, spawn) == Step(Exec(s, []), Advance(t, NoChoice));
    }
    var close := RoutineCloses(Exec(s, spawn));
    ExecConcat(s, spawn, close);
    more := spawn + close;
    ExecConcat(INITIAL, run, more);
  }

  /** http.Serve can fail here: on entry, or while the server is not shut. */
  predicate CanFail(s: Shared, i: nat) {
    i < |s.routines| && (s.routines[i] == Entering || (s.routines[i] == Serving && !s.shut))
  }

  /** The failure is on its way to the channel, or has been sent on it. */
  predicate Reported(s: Shared, e: Failure) {
    |s.routines| == 1 && (s.routines[0] == Sending(e) || s.sent == [e])
  }

  lemma RoutineReports(s: Shared, i: nat, choice: Choice, e: Failure)
    requires SharedFits(s) && Reported(s, e) && i < |s.routines|
    ensures Reported(StepRoutine(s, i, choice), e)
  {}

  lemma CallReports(s: Shared, t: Thread, c: Call, choice: Choice, e: Failure)
    requires SharedFits(s) && CallFits(s, t, c) && Reported(s, e)
    ensures Reported(StepCall(s, t, c, choice).shared, e)
  {
    CallOnward(s, t, c, choice);
  }

  lemma ReportedStays(s: State, e: Failure, a: Action)
    requires Inv(s) && Reported(s.shared, e)
    ensures Reported(Step(s, a).shared, e)
  {
    match a
    case Advance(t, choice) =>
      if t in s.calls {
        assert CallFits(s.shared, t, s.calls[t]);
        CallReports(s.shared, t, s.calls[t], choice, e);
      }
    case Run(i, choice) =>
      if i < |s.shared.routines| {
        RoutineReports(s.shared, i, choice, e);
      }
    case _ =>
  }

  lemma {:induction false} ReportedKept(s: State, e: Failure, more: seq<Action>)
    requires Inv(s) && Reported(s.shared, e)
    ensures Inv(Exec(s, more)) && Reported(Exec(s, more).shared, e)
  {
    if more != [] {
      ReportedKept(s, e, more[..|more| - 1]);
      ReportedStays(Exec(s, more[..|more| - 1]), e, more[|more| - 1]);
      StepKeeps(Exec(s, more[..|more| - 1]), more[|more| - 1]);
    }
  }

  /** A serve failure taken before the shutdown is what the channel carries by the time it closes. */
  lemma FailureIsReported(run: seq<Action>, i: nat, e: Failure, more: seq<Action>)
    requires CanFail(Exec(INITIAL, run).shared, i)
    ensures var s := Exec(Step(Exec(INITIAL, run), Run(i, ServeFails(e))), more).shared;
            Reported(s, e) && (s.closed ==> s.sent == [e])
  {
    var s := Exec(INITIAL, run);
    EveryRunKeeps(run);
    StepKeeps(s, Run(i, ServeFails(e)));
    ReportedKept(Step(s, Run(i, ServeFails(e))), e, more);
  }

  /** The k-th step of the run was a serve failure that http.Serve could return. */
  ghost predicate FailedAt(run: seq<Action>, k: nat, e: Failure) {
    k < |run| && run[k] == Run(0, ServeFails(e)) && CanFail(Exec(INITIAL, run[..k]).shared, 0)
  }

  ghost predicate FailedIn(run: seq<Action>, e: Failure) {
    exists k: nat :: FailedAt(run, k, e)
  }

  lemma FailedEarlier(run: seq<Action>, e: Failure)
    requires run != [] && FailedIn(run[..|run| - 1], e)
    ensures FailedIn(run, e)
  {
    var k: nat :| FailedAt(run[..|run| - 1], k, e);
    assert run[..|run| - 1][..k] == run[..k];
    assert FailedAt(run, k, e);
  }

  predicate Carries(s: Shared, e: Failure) {
    e in s.sent || (s.routines != [] && s.routines[0] == Sending(e))
  }

  lemma RoutineCarries(s: Shared, i: nat, choice: Choice, e: Failure)
    requires SharedFits(s) && i < |s.routines| && Carries(StepRoutine(s, i, choice), e)
    ensures Carries(s, e) || (i == 0 && choice == ServeFails(e) && CanFail(s, 0))
  {}

  lemma CallCarries(s: Shared, t: Thread, c: Call, choice: Choice, e: Failure)
    requires SharedFits(s) && CallFits(s, t, c) && Carries(StepCall(s, t, c, choice).shared, e)
    ensures Carries(s, e)
  {
    CallOnward(s, t, c, choice);
  }

  lemma CarriesStep(s: State, a: Action, e: Failure)
    requires Inv(s) && Carries(Step(s, a).shared, e)
    ensures Carries(s.shared, e) || (a == Run(0, ServeFails(e)) && CanFail(s.shared, 0))
  {
    match a
    case Advance(t, choice) =>
      if t in s.calls {
        assert CallFits(s.shared, t, s.calls[t]);
        CallCarries(s.shared, t, s.calls[t], choice, e);
      }
    case Run(i, choice) =>
      if i < |s.shared.routines| {
        RoutineCarries(s.shared, i, choice, e);
      }
    case _ =>
  }

  /** Nothing else is sent: neither the expected end of a shutdown nor a failure after it. */
  lemma {:induction false} OnlyFailuresAreSent(run: seq<Action>, e: Failure)
    requires Carries(Exec(INITIAL, run).shared, e)
    ensures FailedIn(run, e)
  {
    if run != [] {
      var front, a := run[..|run| - 1], run[|run| - 1];
      EveryRunKeeps(front);
      CarriesStep(Exec(INITIAL, front), a, e);
      if Carries(Exec(INITIAL, front).shared, e) {
        OnlyFailuresAreSent(front, e);
        FailedEarlier(run, e);
      } else {
        assert FailedAt(run, |run| - 1, e);
      }
    }
  }

  /** The goroutine has entered http.Serve on a server now shut, with nothing sent. */
  predicate EndsQuietly(s: Shared) {
    |s.routines| == 1 && s.shut && s.sent == [] && !s.routines[0].Entering? && !s.routines[0].Sending?
  }

  lemma RoutineEndsQuietly(s: Shared, i: nat, choice: Choice)
    requires SharedFits(s) && EndsQuietly(s) && i < |s.routines|
    ensures EndsQuietly(StepRoutine(s, i, choice))
  {}

  lemma QuietStays(s: State, a: Action)
    requires Inv(s) && EndsQuietly(s.shared)
    ensures EndsQuietly(Step(s, a).shared)
  {
    match a
    case Advance(t, choice) =>
      if t in s.calls {
        assert CallFits(s.shared, t, s.calls[t]);
        CallOnward(s.shared, t, s.calls[t], choice);
      }
    case Run(i, choice) =>
      if i < |s.shared.routines| {
        RoutineEndsQuietly(s.shared, i, choice);
      }
    case _ =>
  }

  /** A goroutine that was serving when the server was shut never sends: the expected end of a shutdown
      is not reported. */
  lemma {:induction false} ShutdownIsNotReported(run: seq<Action>, more: seq<Action>)
    requires EndsQuietly(Exec(INITIAL, run).shared)
    ensures EndsQuietly(Exec(INITIAL, run + more).shared)
    decreases |more|
  {
    if more == [] {
      assert run + more == run;
    } else {
      ShutdownIsNotReported(run, more[..|more| - 1]);
      assert (run + more)[..|run + more| - 1] == run + more[..|more| - 1];
      EveryRunKeeps(run + more[..|more| - 1]);
      QuietStays(Exec(INITIAL, run + more[..|more| - 1]), more[|more| - 1]);
    }
  }

  /** http.Serve is entered once and left only by a failure or the shutdown; and what a send on or a
      close of a closed channel would be is a panic. */
  lemma ServesUntilEnded(s: Shared, i: nat, choice: Choice)
    requires i < |s.routines| && !s.shut && !choice.ServeFails?
    ensures s.routines[i] == Entering || s.routines[i] == Serving ==> StepRoutine(s, i, choice).routines[i] == Serving
    ensures s.closed && (s.routines[i].Sending? || s.routines[i] == Closing) ==> StepRoutine(s, i, choice).panicked
  {}

  /** What an Addr call reads is the bound address once a listener is stored, and the configured one
      before that; and what it returns is what it read. */
  lemma AddrReads(run: seq<Action>, t: Thread, choice: Choice)
    requires var s := Exec(INITIAL, run); t in s.calls && (s.calls[t] == AddrRead || s.calls[t].AddrUnlock?)
    ensures var s, s' := Exec(INITIAL, run), Step(Exec(INITIAL, run), Advance(t, choice));
            if s.calls[t] == AddrRead then
              && s'.calls[t].AddrUnlock? && s'.shared.addrs == s.shared.addrs + [s'.calls[t].addr]
              && (s'.calls[t].addr == Configured <==> s.shared.listener.None?)
              && (s'.calls[t].addr.Bound? ==> s.shared.listener == Some(s'.calls[t].addr.at))
            else s'.calls[t] == AddrReturned(s.calls[t].addr) && s'.shared == s.shared.(mutex := None)
  {}
}
