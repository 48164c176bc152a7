/** The commit and panic machine: the writer net/http supplies, the Recorder that shadows it, and the
    layers (Handle, Recoverer, RequestLogger) that decide by what the Recorder saw. */
module Commit {
  import opened Options

  /** What a writer has committed so far; the status is 0 until then. */
  datatype Committed = Committed(committed: bool, status: int)

  const NOTHING := Committed(false, 0)

  /** One piece of a response body: a handler's own bytes, or a problem document. */
  datatype Payload = Data(size: nat) | ProblemDoc(status: int)

  /** The connection beneath, under net/http's commit rules. A broken one fails every body write. */
  datatype Connection = Connection(commit: Committed, informed: seq<int>, body: seq<Payload>, broken: bool)

  /** A call on a ResponseWriter. A ReadFrom is given the number of bytes its source holds, a Flush
      whether the writer beneath can flush. */
  datatype Op = WriteHeader(code: int) | Write(payload: Payload) | ReadFrom(size: nat) | Flush(ok: bool)

  datatype PanicValue = AbortHandler | OtherValue

  datatype Outcome = Returned | Panicked(value: PanicValue)

  /** A 1xx other than 101 is informational; every other code is final. */
  predicate IsFinal(code: int) {
    code < 100 || code > 199 || code == 101
  }

  predicate BodyAllowed(status: int) {
    !(100 <= status <= 199) && status != 204 && status != 304
  }

  // ---------------------------------------------------------------- the writer beneath

  datatype ConnResult = ConnResult(conn: Connection, panicked: bool, failed: bool)

  /** net/http refuses a code outside 100..999 with a panic, but only before it committed. */
  function ConnHeader(c: Connection, code: int): ConnResult {
    if c.commit.committed then ConnResult(c, false, false)
    else if code < 100 || code > 999 then ConnResult(c, true, false)
    else if !IsFinal(code) then ConnResult(c.(informed := c.informed + [code]), false, false)
    else ConnResult(c.(commit := Committed(true, code)), false, false)
  }

  function Implicit200(c: Committed): Committed {
    if c.committed then c else Committed(true, 200)
  }

  function ConnWrite(c: Connection, payload: Payload): ConnResult {
    var commit := Implicit200(c.commit);
    if c.broken || !BodyAllowed(commit.status) then ConnResult(c.(commit := commit), false, true)
    else ConnResult(c.(commit := commit, body := c.body + [payload]), false, false)
  }

  /** A copy from an empty source never reaches the writer. */
  function ConnReadFrom(c: Connection, size: nat): ConnResult {
    if size == 0 then ConnResult(c, false, false) else ConnWrite(c, Data(size))
  }

  function ConnFlush(c: Connection, ok: bool): ConnResult {
    if ok then ConnResult(c.(commit := Implicit200(c.commit)), false, false) else ConnResult(c, false, true)
  }

  function ConnStep(c: Connection, op: Op): ConnResult {
    match op
    case WriteHeader(code) => ConnHeader(c, code)
    case Write(payload) => ConnWrite(c, payload)
    case ReadFrom(size) => ConnReadFrom(c, size)
    case Flush(ok) => ConnFlush(c, ok)
  }

  /** A run of calls on the bare writer, cut short by a panic. */
  function ConnRun(c: Connection, ops: seq<Op>): ConnResult
    decreases |ops|
  {
    if ops == [] then ConnResult(c, false, false)
    else
      var r := ConnStep(c, ops[0]);
      if r.panicked then r else ConnRun(r.conn, ops[1..])
  }

  // ---------------------------------------------------------------- the Recorder over it

  /** What the Recorder believes, beside the connection it wraps. */
  datatype Pair = Pair(rec: Committed, conn: Connection)

  datatype StepResult = StepResult(pair: Pair, panicked: bool, failed: bool)

  function RecStep(rec: Committed, op: Op): Committed {
    match op
    case WriteHeader(code) => if IsFinal(code) && !rec.committed then Committed(true, code) else rec
    case Write(_) => Implicit200(rec)
    case ReadFrom(_) => Implicit200(rec)
    case Flush(ok) => if ok then Implicit200(rec) else rec
  }

  function Step(p: Pair, op: Op): StepResult {
    var r := ConnStep(p.conn, op);
    StepResult(Pair(RecStep(p.rec, op), r.conn), r.panicked, r.failed)
  }

  function Run(p: Pair, ops: seq<Op>): StepResult
    decreases |ops|
  {
    if ops == [] then StepResult(p, false, false)
    else
      var r := Step(p, ops[0]);
      if r.panicked then r else Run(r.pair, ops[1..])
  }

  predicate Synced(p: Pair) {
    p.rec == p.conn.commit && (!p.rec.committed ==> p.rec.status == 0)
  }

  /** What the writer beneath asks of one call while nothing is committed. */
  predicate Legal(c: Committed, op: Op) {
    c.committed || match op
                   case WriteHeader(code) => 100 <= code <= 999
                   case ReadFrom(size) => size > 0
                   case _ => true
  }

  /** Every call of the run is legal in the state it meets. */
  predicate InContract(c: Connection, ops: seq<Op>)
    decreases |ops|
  {
    ops == [] || (Legal(c.commit, ops[0]) && InContract(ConnStep(c, ops[0]).conn, ops[1..]))
  }

  /** The status the first committing call of a run names. */
  function FirstFinal(ops: seq<Op>): (status: Committed)
    ensures status.committed || status == NOTHING
  {
    if ops == [] then NOTHING
    else match ops[0]
         case WriteHeader(code) => if IsFinal(code) then Committed(true, code) else FirstFinal(ops[1..])
         case Flush(false) => FirstFinal(ops[1..])
         case _ => Committed(true, 200)
  }

  /** The Recorder forwards every call: the connection and the panics are those of the bare writer. */
  lemma {:induction false} Transparent(p: Pair, ops: seq<Op>)
    ensures Run(p, ops).pair.conn == ConnRun(p.conn, ops).conn
    ensures Run(p, ops).panicked == ConnRun(p.conn, ops).panicked
    ensures !Run(p, ops).failed && !ConnRun(p.conn, ops).failed
    decreases |ops|
  {
    if ops != [] && !Step(p, ops[0]).panicked {
      Transparent(Step(p, ops[0]).pair, ops[1..]);
    }
  }

  lemma StepSync(p: Pair, op: Op)
    requires Synced(p)
    ensures Legal(p.conn.commit, op) ==> Synced(Step(p, op).pair) && !Step(p, op).panicked
    ensures !Legal(p.conn.commit, op) ==> !Synced(Step(p, op).pair)
  {}

  /** The Recorder agrees with the writer beneath after every prefix of a run exactly when the run
      keeps the writer's contract. */
  lemma {:induction false} SimulatesIff(p: Pair, ops: seq<Op>)
    requires Synced(p)
    ensures InContract(p.conn, ops) <==> forall k | 0 <= k <= |ops| :: Synced(Run(p, ops[..k]).pair)
    decreases |ops|
  {
    if ops == [] {
      assert ops[..0] == [];
    } else {
      StepSync(p, ops[0]);
      var q := Step(p, ops[0]).pair;
      if Legal(p.conn.commit, ops[0]) {
        SimulatesIff(q, ops[1..]);
        forall k | 0 < k <= |ops|
          ensures Run(p, ops[..k]) == Run(q, ops[1..][..k - 1])
        {
          assert ops[..k][0] == ops[0] && ops[..k][1..] == ops[1..][..k - 1];
        }
        assert Run(p, ops[..0]).pair == p;
        if forall k | 0 <= k <= |ops| :: Synced(Run(p, ops[..k]).pair) {
          forall j | 0 <= j <= |ops[1..]|
            ensures Synced(Run(q, ops[1..][..j]).pair)
          {
            assert Run(p, ops[..j + 1]) == Run(q, ops[1..][..j + 1 - 1]);
          }
        }
      } else {
        assert ops[..1] == [ops[0]];
        assert ops[..1][1..] == [];
        assert Run(p, ops[..1]).pair == q;
      }
    }
  }

  /** In contract, a run never panics, stays synced, and commits exactly its first final status. */
  lemma {:induction false} FirstFinalWins(p: Pair, ops: seq<Op>)
    requires Synced(p) && InContract(p.conn, ops)
    ensures !Run(p, ops).panicked && Synced(Run(p, ops).pair)
    ensures Run(p, ops).pair.rec == if p.rec.committed then p.rec else FirstFinal(ops)
    decreases |ops|
  {
    if ops != [] {
      StepSync(p, ops[0]);
      FirstFinalWins(Step(p, ops[0]).pair, ops[1..]);
    }
  }

  /** A WriteHeader by its number, on a response with nothing committed: 101 and 200 to 999 commit that
      status on both sides; the other 1xx are passed on and commit nothing; anything else is a panic. */
  lemma HeaderByNumber(c: Connection, code: int)
    requires c.commit == NOTHING
    ensures var r := Step(Pair(NOTHING, c), WriteHeader(code));
            && !r.failed
            && (code == 101 || 200 <= code <= 999 ==>
                  !r.panicked && r.pair == Pair(Committed(true, code), c.(commit := Committed(true, code))))
            && (100 <= code <= 199 && code != 101 ==>
                  !r.panicked && r.pair == Pair(NOTHING, c.(informed := c.informed + [code])))
            && (code < 100 || code > 999 ==> r.panicked && r.pair.conn == c)
  {}

  /** A body write on a committed response goes out exactly when the connection is whole and the status
      takes a body; on an uncommitted one it commits 200 first. */
  lemma BodyByNumber(p: Pair, payload: Payload)
    requires Synced(p)
    ensures var r, status := Step(p, Write(payload)), if p.rec.committed then p.rec.status else 200;
            && r.pair.rec == r.pair.conn.commit == Committed(true, status) && !r.panicked
            && (r.failed <==> p.conn.broken || 100 <= status <= 199 || status == 204 || status == 304)
            && r.pair.conn.body == p.conn.body + if r.failed then [] else [payload]
  {}

  /** A flush fails exactly when the writer beneath cannot flush, and then changes nothing; otherwise it
      commits an implicit 200. A copy is one body write, and of an empty source none at all. */
  lemma FlushAndCopy(p: Pair, ok: bool, size: nat)
    requires Synced(p)
    ensures var r := Step(p, Flush(ok));
            && !r.panicked && (r.failed <==> !ok)
            && (!ok || p.rec.committed ==> r.pair == p)
            && (ok && !p.rec.committed ==>
                  r.pair == Pair(Committed(true, 200), p.conn.(commit := Committed(true, 200))))
    ensures var r := Step(p, ReadFrom(size));
            if size == 0 then !r.panicked && !r.failed && r.pair.conn == p.conn
            else r == Step(p, Write(Data(size)))
  {}

  /** Why the contract is stated: a copy from an empty source, then a 404. */
  lemma OutOfContractDisagrees(c: Connection)
    requires c.commit == NOTHING
    ensures var p := Run(Pair(NOTHING, c), [ReadFrom(0), WriteHeader(404)]).pair;
            p.rec.status == 200 && p.conn.commit == Committed(true, 404)
  {
    var ops := [ReadFrom(0), WriteHeader(404)];
    assert ops[1..] == [WriteHeader(404)];
    var p := Pair(Committed(true, 200), c);
    assert Run(p, ops[1..]) == Run(Step(p, WriteHeader(404)).pair, []);
  }

  // ---------------------------------------------------------------- records

  datatype Level = Debug | Info | Error

  datatype Record =
    | Request(level: Level, status: int)
    | HandlerPanicked(committed: Option<int>)
    | ProblemWriteFailed(status: int)
    | ErrorAfterCommit(status: int)
    | ServerError(status: int)

  datatype World = World(pair: Pair, log: seq<Record>)

  datatype Served = Served(world: World, outcome: Outcome)

  // ---------------------------------------------------------------- the handler and Handle

  /** What the error writer makes of an error: a panic, where a nil pointer has no status or no text
      to send, or a problem, by its status and whether it encodes. */
  datatype Answer = NoAnswer | Problem(status: int, encodes: bool)

  /** A returned error; it is readable when its Error method returns, which a nil pointer's does not. */
  datatype Failure = Failure(answer: Answer, readable: bool)

  /** The innermost handler: its calls, then how it ends. A Handled one is adapted by Handle and
      returns fault when it ends by returning. */
  datatype Core =
    | Plain(ops: seq<Op>, ending: Outcome)
    | Handled(ops: seq<Op>, ending: Outcome, fault: Option<Failure>)

  datatype Layer = RequestLogger | Recoverer

  datatype Sent = Sent(pair: Pair, panicked: bool, failed: bool)

  /** Problem.Write: the header, then the encoder's one write when the document encodes. */
  function ProblemSent(p: Pair, status: int, encodes: bool): Sent {
    var h := Step(p, WriteHeader(status));
    if h.panicked then Sent(h.pair, true, false)
    else if !encodes then Sent(h.pair, false, true)
    else var b := Step(h.pair, Write(ProblemDoc(status))); Sent(b.pair, false, b.failed)
  }

  function AnswerError(w: World, fault: Failure): Served {
    if w.pair.rec.committed then
      if fault.readable then Served(w.(log := w.log + [ErrorAfterCommit(w.pair.rec.status)]), Returned)
      else Served(w, Panicked(OtherValue))
    else match fault.answer
         case NoAnswer => Served(w, Panicked(OtherValue))
         case Problem(status, encodes) =>
           var cause := if status >= 500 then [ServerError(status)] else [];
           var s := ProblemSent(w.pair, status, encodes);
           if s.panicked then Served(World(s.pair, w.log + cause), Panicked(OtherValue))
           else if s.failed then
             Served(World(s.pair, w.log + cause + [ProblemWriteFailed(s.pair.rec.status)]), Returned)
           else Served(World(s.pair, w.log + cause), Returned)
  }

  function ServeCore(core: Core, w: World): Served {
    var r := Run(w.pair, core.ops);
    var w' := w.(pair := r.pair);
    if r.panicked then Served(w', Panicked(OtherValue))
    else if core.ending.Panicked? then Served(w', core.ending)
    else if core.Handled? && core.fault.Some? then AnswerError(w', core.fault.value)
    else Served(w', Returned)
  }

  // ---------------------------------------------------------------- the layers

  /** Recoverer's deferred block. */
  function Recover(s: Served): Served {
    if s.outcome != Panicked(OtherValue) then s
    else
      var p := s.world.pair;
      var log := s.world.log + [HandlerPanicked(if p.rec.committed then Some(p.rec.status) else None)];
      if p.rec.committed then Served(World(p, log), Panicked(AbortHandler))
      else
        var sent := ProblemSent(p, 500, true);
        Served(World(sent.pair, if sent.failed then log + [ProblemWriteFailed(sent.pair.rec.status)] else log),
               Returned)
  }

  function LoggedStatus(rec: Committed, outcome: Outcome): int {
    if rec.committed then rec.status else if outcome.Returned? then 200 else 500
  }

  function LoggedLevel(probe: bool, status: int): Level {
    if probe && 200 <= status < 300 then Debug else Info
  }

  /** RequestLogger's deferred block. */
  function LogRequest(s: Served, probe: bool): Served {
    var status := LoggedStatus(s.world.pair.rec, s.outcome);
    s.(world := s.world.(log := s.world.log + [Request(LoggedLevel(probe, status), status)]))
  }

  function Leave(layer: Layer, s: Served, probe: bool): Served {
    match layer
    case RequestLogger => LogRequest(s, probe)
    case Recoverer => Recover(s)
  }

  /** A request through the layers, the first one outermost. */
  function Serve(layers: seq<Layer>, core: Core, w: World, probe: bool): Served {
    if layers == [] then ServeCore(core, w)
    else Leave(layers[0], Serve(layers[1..], core, w, probe), probe)
  }

  // ---------------------------------------------------------------- what the client and the log see

  /** What net/http sends when the outermost handler is done: nothing when a panic escapes an
      uncommitted response, and an implicit 200 when the handler returns without writing. */
  function ClientStatus(s: Served): Option<int> {
    var c := s.world.pair.conn.commit;
    if c.committed then Some(c.status) else if s.outcome.Returned? then Some(200) else None
  }

  predicate RecordsSay(log: seq<Record>, status: int) {
    forall r | r in log && r.Request? :: r.status == status
  }

  function CountRequests(log: seq<Record>): nat {
    if log == [] then 0 else (if log[|log| - 1].Request? then 1 else 0) + CountRequests(log[..|log| - 1])
  }

  function CountPanics(log: seq<Record>): nat {
    if log == [] then 0 else (if log[|log| - 1].HandlerPanicked? then 1 else 0) + CountPanics(log[..|log| - 1])
  }

  function CountLoggers(layers: seq<Layer>): nat {
    if layers == [] then 0 else (if layers[0].RequestLogger? then 1 else 0) + CountLoggers(layers[1..])
  }

  ghost predicate Fresh(w: World) {
    w.pair.rec == NOTHING && w.pair.conn.commit == NOTHING && w.pair.conn.body == [] && w.log == []
  }

  /** The calls keep the writer's contract, and a returned error maps to a writable status. */
  ghost predicate CoreInContract(core: Core, w: World) {
    && InContract(w.pair.conn, core.ops)
    && (core.Handled? && core.fault.Some? && core.fault.value.answer.Problem? ==>
          100 <= core.fault.value.answer.status <= 999)
  }

  /** Handle has an error to answer. */
  predicate Fails(core: Core) {
    core.Handled? && core.ending.Returned? && core.fault.Some?
  }

  /** How the innermost handler ends, in contract: as its body does, save for an error that has no
      text to log after commit, or no answer before. */
  function EndOf(core: Core, committed: bool): Outcome {
    if Fails(core) && (if committed then !core.fault.value.readable else core.fault.value.answer.NoAnswer?)
    then Panicked(OtherValue)
    else core.ending
  }

  lemma CountsAppend(log: seq<Record>, r: Record)
    ensures CountRequests(log + [r]) == CountRequests(log) + if r.Request? then 1 else 0
    ensures CountPanics(log + [r]) == CountPanics(log) + if r.HandlerPanicked? then 1 else 0
  {
    assert (log + [r])[..|log|] == log;
  }

  /** The problem's one document goes out whole. */
  predicate Delivered(a: Answer, broken: bool)
    requires a.Problem?
  {
    a.encodes && !broken && (IsFinal(a.status) ==> BodyAllowed(a.status))
  }

  /** What a problem sent on an uncommitted response commits. */
  function ProblemCommits(a: Answer): Committed
    requires a.Problem?
  {
    if IsFinal(a.status) then Committed(true, a.status) else if a.encodes then Committed(true, 200) else NOTHING
  }

  lemma ProblemSends(p: Pair, a: Answer)
    requires Synced(p) && !p.rec.committed && a.Problem? && 100 <= a.status <= 999
    ensures var sent := ProblemSent(p, a.status, a.encodes);
            && !sent.panicked && (sent.failed <==> !Delivered(a, p.conn.broken))
            && Synced(sent.pair) && sent.pair.conn.commit == ProblemCommits(a)
            && sent.pair.conn.body ==
                 p.conn.body + if Delivered(a, p.conn.broken) then [ProblemDoc(a.status)] else []
  {}

  /** Handle never writes a second response: an error after commit is logged, if it can be read, and
      leaves the connection alone; one before it sends exactly the one document, logged as the cause of
      a 5xx, and logged again if it did not go out. */
  lemma HandleWritesOnce(core: Core, w: World)
    requires Fresh(w) && CoreInContract(core, w)
    ensures var s, run := ServeCore(core, w), Run(w.pair, core.ops).pair;
            && Synced(run) && Synced(s.world.pair) && s.outcome == EndOf(core, run.conn.commit.committed)
            && (run.conn.commit.committed || !Fails(core) || s.outcome.Panicked? ==> s.world.pair == run)
            && (!Fails(core) || s.outcome.Panicked? ==> s.world.log == [])
            && (Fails(core) && s.outcome.Returned? ==>
                  if run.conn.commit.committed then s.world.log == [ErrorAfterCommit(run.conn.commit.status)]
                  else
                    var a := core.fault.value.answer;
                    && s.world.pair.conn.commit == ProblemCommits(a)
                    && s.world.pair.conn.body ==
                         run.conn.body + (if Delivered(a, run.conn.broken) then [ProblemDoc(a.status)] else [])
                    && s.world.log == (if a.status >= 500 then [ServerError(a.status)] else [])
                         + (if Delivered(a, run.conn.broken) then [] else
                            [ProblemWriteFailed(ProblemCommits(a).status)]))
  {
    FirstFinalWins(w.pair, core.ops);
    var run := Run(w.pair, core.ops).pair;
    if Fails(core) && !run.rec.committed && core.fault.value.answer.Problem? {
      ProblemSends(run, core.fault.value.answer);
    }
  }

  /** Whatever the handler does, it leaves no request record and no panic record. */
  lemma CoreLogs(core: Core, w: World)
    requires w.log == []
    ensures var log := ServeCore(core, w).world.log;
            && (forall r | r in log :: !r.Request? && !r.HandlerPanicked?)
            && CountRequests(log) == 0 == CountPanics(log)
  {
    CountsByElements(ServeCore(core, w).world.log);
  }

  lemma {:induction false} CountsByElements(log: seq<Record>)
    requires forall r | r in log :: !r.Request? && !r.HandlerPanicked?
    ensures CountRequests(log) == 0 == CountPanics(log)
  {
    if log != [] {
      assert log == log[..|log| - 1] + [log[|log| - 1]];
      CountsByElements(log[..|log| - 1]);
    }
  }

  /** What some layers make of the innermost handler's end core0, in contract or not: the records agree
      with one status that the layers outside cannot change, save for the one case where a Recoverer
      must still answer. */
  ghost predicate Kept(layers: seq<Layer>, core0: Served, s: Served) {
    var caught := Recoverer in layers && core0.outcome == Panicked(OtherValue);
    var p := core0.world.pair;
    && RecordsSay(s.world.log, LoggedStatus(s.world.pair.rec, s.outcome))
    && CountRequests(s.world.log) == CountLoggers(layers)
    && CountPanics(s.world.log) == (if caught then 1 else 0)
    && PanicsSay(s.world.log, p.rec)
    && s.outcome == (if !caught then core0.outcome else if p.rec.committed then Panicked(AbortHandler) else Returned)
    && s.world.pair == (if caught && !p.rec.committed then ProblemSent(p, 500, true).pair else p)
  }

  /** Every panic record carries the status the Recorder had seen, if any. */
  predicate PanicsSay(log: seq<Record>, rec: Committed) {
    forall r | r in log && r.HandlerPanicked? :: r.committed == if rec.committed then Some(rec.status) else None
  }

  lemma LoggerKeeps(layers: seq<Layer>, core0: Served, s: Served, probe: bool)
    requires layers != [] && layers[0] == RequestLogger && Kept(layers[1..], core0, s)
    ensures Kept(layers, core0, LogRequest(s, probe))
  {
    var status := LoggedStatus(s.world.pair.rec, s.outcome);
    CountsAppend(s.world.log, Request(LoggedLevel(probe, status), status));
    assert Recoverer in layers <==> Recoverer in layers[1..] by {
      assert layers == [layers[0]] + layers[1..];
    }
  }

  /** Recoverer's two records: one of the panic, and none of a request. */
  lemma RecoverLogs(s: Served)
    requires s.outcome == Panicked(OtherValue)
    ensures CountRequests(Recover(s).world.log) == CountRequests(s.world.log)
    ensures CountPanics(Recover(s).world.log) == CountPanics(s.world.log) + 1
  {
    var p := s.world.pair;
    var r := HandlerPanicked(if p.rec.committed then Some(p.rec.status) else None);
    CountsAppend(s.world.log, r);
    if !p.rec.committed {
      CountsAppend(s.world.log + [r], ProblemWriteFailed(ProblemSent(p, 500, true).pair.rec.status));
    }
  }

  lemma RecoverSays(s: Served, status: int)
    requires s.outcome == Panicked(OtherValue)
    ensures RecordsSay(s.world.log, status) ==> RecordsSay(Recover(s).world.log, status)
    ensures PanicsSay(s.world.log, s.world.pair.rec) ==> PanicsSay(Recover(s).world.log, s.world.pair.rec)
  {}

  lemma RecovererIn(layers: seq<Layer>)
    requires layers != [] && layers[0] == Recoverer
    ensures Recoverer in layers && CountLoggers(layers) == CountLoggers(layers[1..])
  {}

  lemma RecovererKeeps(layers: seq<Layer>, core0: Served, s: Served)
    requires layers != [] && layers[0] == Recoverer && Kept(layers[1..], core0, s)
    ensures Kept(layers, core0, Recover(s))
  {
    RecovererIn(layers);
    if s.outcome == Panicked(OtherValue) {
      RecoverLogs(s);
      RecoverSays(s, LoggedStatus(s.world.pair.rec, s.outcome));
    }
  }

  lemma {:induction false} LayersKeep(layers: seq<Layer>, core: Core, w: World, probe: bool)
    requires w.log == []
    ensures Kept(layers, ServeCore(core, w), Serve(layers, core, w, probe))
  {
    if layers == [] {
      CoreLogs(core, w);
    } else {
      LayersKeep(layers[1..], core, w, probe);
      var inner := Serve(layers[1..], core, w, probe);
      match layers[0]
      case RequestLogger => LoggerKeeps(layers, ServeCore(core, w), inner, probe);
      case Recoverer => RecovererKeeps(layers, ServeCore(core, w), inner);
    }
  }

  /** The connection commits nothing that the Recorder does not know of. */
  predicate Aware(p: Pair) {
    p.conn.commit.committed ==> p.rec.committed
  }

  lemma {:induction false} RunAware(p: Pair, ops: seq<Op>)
    requires Aware(p)
    ensures Aware(Run(p, ops).pair)
    decreases |ops|
  {
    if ops != [] && !Step(p, ops[0]).panicked {
      RunAware(Step(p, ops[0]).pair, ops[1..]);
    }
  }

  lemma CoreAware(core: Core, w: World)
    requires Aware(w.pair)
    ensures Aware(ServeCore(core, w).world.pair)
  {
    RunAware(w.pair, core.ops);
  }

  /** How the innermost handler ends, in contract or not: a call that net/http refuses, an error that
      cannot be read after commit, and one before it that has no answer or one net/http refuses, are
      panics; any other error is answered, and the rest is the handler's own ending. */
  lemma CoreEnds(core: Core, w: World)
    requires Fresh(w)
    ensures var run, fault := Run(w.pair, core.ops), if Fails(core) then core.fault.value else Failure(NoAnswer, true);
            ServeCore(core, w).outcome ==
              if run.panicked then Panicked(OtherValue)
              else if !Fails(core) then core.ending
              else if run.pair.rec.committed then (if fault.readable then Returned else Panicked(OtherValue))
              else if fault.answer.Problem? && 100 <= fault.answer.status <= 999 then Returned
              else Panicked(OtherValue)
    ensures Run(w.pair, core.ops).panicked ==> ServeCore(core, w).world == World(Run(w.pair, core.ops).pair, [])
    ensures var run := Run(w.pair, core.ops);
            !run.panicked && Fails(core) && !run.pair.rec.committed && core.fault.value.answer.Problem? ==>
              var status := core.fault.value.answer.status;
              status < 100 || status > 999 ==>
                ServeCore(core, w).world == World(Pair(Committed(true, status), run.pair.conn),
                                                  if status >= 500 then [ServerError(status)] else [])
  {
    RunAware(w.pair, core.ops);
  }

  /** A 500 document on a response the Recorder saw nothing of commits both sides, and its body goes
      out unless the connection is broken. */
  lemma AnswerCommits(p: Pair)
    requires Aware(p) && !p.rec.committed
    ensures var sent := ProblemSent(p, 500, true).pair;
            && sent.rec == sent.conn.commit == Committed(true, 500)
            && sent.conn.body == p.conn.body + if p.conn.broken then [] else [ProblemDoc(500)]
  {}

  /** Every request record is at debug when it is a probe's with a status from 200 to 299, and at info
      otherwise. */
  predicate LevelsSay(log: seq<Record>, probe: bool) {
    forall r | r in log && r.Request? :: r.level == if probe && 200 <= r.status <= 299 then Debug else Info
  }

  lemma {:induction false} EveryLevelIsItsOwn(layers: seq<Layer>, core: Core, w: World, probe: bool)
    requires w.log == []
    ensures LevelsSay(Serve(layers, core, w, probe).world.log, probe)
  {
    if layers == [] {
      CoreLogs(core, w);
    } else {
      EveryLevelIsItsOwn(layers[1..], core, w, probe);
    }
  }

  /** What the Recoverer that catches a panic adds to the log: the panic, and the document that answers
      it if that does not go out. */
  lemma RecoverRecords(s: Served)
    requires s.outcome == Panicked(OtherValue) && Aware(s.world.pair)
    ensures var p := s.world.pair;
            Recover(s).world.log ==
              if p.rec.committed then s.world.log + [HandlerPanicked(Some(p.rec.status))]
              else if p.conn.broken then s.world.log + [HandlerPanicked(None), ProblemWriteFailed(500)]
              else s.world.log + [HandlerPanicked(None)]
  {
    var p := s.world.pair;
    if !p.rec.committed {
      AnswerCommits(p);
      assert s.world.log + [HandlerPanicked(None)] + [ProblemWriteFailed(500)]
             == s.world.log + [HandlerPanicked(None), ProblemWriteFailed(500)];
    }
  }

  /** There is a record per logger and all carry one status. In contract it is the one the client gets;
      when a panic escapes with nothing committed the client gets none, and every record says 500. */
  lemma EveryRecordTellsTheClientsStatus(layers: seq<Layer>, core: Core, w: World, probe: bool)
    requires Fresh(w)
    ensures var s := Serve(layers, core, w, probe);
            && CountRequests(s.world.log) == CountLoggers(layers)
            && RecordsSay(s.world.log, LoggedStatus(s.world.pair.rec, s.outcome))
            && (CoreInContract(core, w) ==>
                  && (ClientStatus(s).Some? ==> RecordsSay(s.world.log, ClientStatus(s).value))
                  && (ClientStatus(s).None? ==> RecordsSay(s.world.log, 500)))
    ensures var core0 := ServeCore(core, w).outcome;
            CoreInContract(core, w) && (core0 == Returned || (core0 == Panicked(OtherValue) && Recoverer in layers)) ==>
              ClientStatus(Serve(layers, core, w, probe)).Some?
  {
    LayersKeep(layers, core, w, probe);
    if CoreInContract(core, w) {
      HandleWritesOnce(core, w);
      var p := ServeCore(core, w).world.pair;
      if !p.rec.committed {
        AnswerCommits(p);
      }
    }
  }

  lemma {:induction false} HasRequest(log: seq<Record>) returns (r: Record)
    requires CountRequests(log) > 0
    ensures r in log && r.Request?
  {
    r := log[|log| - 1];
    if !r.Request? {
      r := HasRequest(log[..|log| - 1]);
    }
  }

  /** What the Recorder took down when the handler was done is what the client gets: the committed
      status, or the 200 of a handler that returned. */
  predicate Told(core0: Served) {
    var p := core0.world.pair;
    p.rec.committed ==>
      if p.conn.commit.committed then p.conn.commit.status == p.rec.status
      else core0.outcome.Returned? ==> p.rec.status == 200
  }

  /** In contract or not, under any stack that logs: the records carry the status the client gets, if it
      gets one, exactly when the Recorder had it right at the handler's end. No layer repairs or spoils it. */
  lemma RecordsTellIff(layers: seq<Layer>, core: Core, w: World, probe: bool)
    requires Fresh(w) && CountLoggers(layers) > 0
    ensures var s := Serve(layers, core, w, probe);
            (ClientStatus(s).Some? ==> RecordsSay(s.world.log, ClientStatus(s).value)) <==> Told(ServeCore(core, w))
  {
    var s, core0 := Serve(layers, core, w, probe), ServeCore(core, w);
    LayersKeep(layers, core, w, probe);
    CoreAware(core, w);
    var r := HasRequest(s.world.log);
    assert r.status == LoggedStatus(s.world.pair.rec, s.outcome);
    if !core0.world.pair.rec.committed {
      AnswerCommits(core0.world.pair);
    }
  }

  /** With a Recoverer in the stack, whatever the handler does: one record per panic however many are
      nested, http.ErrAbortHandler alone escapes and exactly on an abort or a panic after commit, and
      any other panic is answered with the one 500 document. */
  lemma OnePanicOneRecordOneAnswer(layers: seq<Layer>, core: Core, w: World, probe: bool)
    requires Fresh(w) && Recoverer in layers
    ensures var s, core0 := Serve(layers, core, w, probe), ServeCore(core, w);
            var p := core0.world.pair;
            && CountPanics(s.world.log) == (if core0.outcome == Panicked(OtherValue) then 1 else 0)
            && s.outcome != Panicked(OtherValue)
            && (s.outcome == Panicked(AbortHandler) <==>
                  core0.outcome == Panicked(AbortHandler) || (core0.outcome == Panicked(OtherValue) && p.rec.committed))
            && (core0.outcome == Panicked(OtherValue) && !p.rec.committed ==>
                  && !p.conn.commit.committed
                  && s.world.pair.rec == s.world.pair.conn.commit == Committed(true, 500)
                  && (!p.conn.broken ==> s.world.pair.conn.body == p.conn.body + [ProblemDoc(500)]))
            && (core0.outcome != Panicked(OtherValue) || p.rec.committed ==> s.world.pair == p)
            && PanicsSay(s.world.log, p.rec)
  {
    LayersKeep(layers, core, w, probe);
    CoreAware(core, w);
    if !ServeCore(core, w).world.pair.rec.committed {
      AnswerCommits(ServeCore(core, w).world.pair);
    }
  }

  /** In contract the same is told by what the handler did and what its connection had committed. */
  lemma PanicsInContract(layers: seq<Layer>, core: Core, w: World, probe: bool)
    requires Fresh(w) && CoreInContract(core, w) && Recoverer in layers
    ensures var s, run := Serve(layers, core, w, probe), ConnRun(w.pair.conn, core.ops).conn;
            var end := EndOf(core, run.commit.committed);
            && CountPanics(s.world.log) == (if end == Panicked(OtherValue) then 1 else 0)
            && (s.outcome == Panicked(AbortHandler) <==>
                  end == Panicked(AbortHandler) || (end == Panicked(OtherValue) && run.commit.committed))
            && (end == Panicked(OtherValue) && !run.commit.committed ==>
                  && s.outcome == Returned && s.world.pair.conn.commit == Committed(true, 500)
                  && (!run.broken ==> s.world.pair.conn.body == run.body + [ProblemDoc(500)]))
  {
    OnePanicOneRecordOneAnswer(layers, core, w, probe);
    LayersKeep(layers, core, w, probe);
    HandleWritesOnce(core, w);
    Transparent(w.pair, core.ops);
  }

  /** Without a Recoverer, whatever the handler does: a panic leaves the stack as it came and is not
      logged. */
  lemma NoRecovererNoRecovery(layers: seq<Layer>, core: Core, w: World, probe: bool)
    requires w.log == [] && Recoverer !in layers
    ensures var s, core0 := Serve(layers, core, w, probe), ServeCore(core, w);
            s.outcome == core0.outcome && CountPanics(s.world.log) == 0 && s.world.pair == core0.world.pair
  {
    LayersKeep(layers, core, w, probe);
  }

  /** A handler that names a status net/http refuses panics with nothing on the wire; the Recorder has
      taken the status down, so the Recoverer aborts where a 500 could still have been sent. */
  lemma RefusedStatusAborts(layers: seq<Layer>, w: World, probe: bool)
    requires Fresh(w) && Recoverer in layers
    ensures var s := Serve(layers, Plain([WriteHeader(1000)], Returned), w, probe);
            && s.outcome == Panicked(AbortHandler) && s.world.pair.conn == w.pair.conn
            && RecordsSay(s.world.log, 1000) && ClientStatus(s) == None
  {
    var core := Plain([WriteHeader(1000)], Returned);
    assert ServeCore(core, w).world.pair == Pair(Committed(true, 1000), w.pair.conn);
    LayersKeep(layers, core, w, probe);
  }

  /** b is a with these records in front of its log. */
  predicate Continues(log: seq<Record>, a: Served, b: Served) {
    b.outcome == a.outcome && b.world.pair == a.world.pair && b.world.log == log + a.world.log
  }

  lemma CoreContinues(core: Core, w: World)
    ensures Continues(w.log, ServeCore(core, w.(log := [])), ServeCore(core, w))
  {
    assert w.log + [] == w.log;
    if Fails(core) && !Run(w.pair, core.ops).panicked {
      AnswerContinues(Run(w.pair, core.ops).pair, w.log, core.fault.value);
    }
  }

  lemma AnswerContinues(p: Pair, log: seq<Record>, fault: Failure)
    ensures Continues(log, AnswerError(World(p, []), fault), AnswerError(World(p, log), fault))
  {
    assert log + [] == log;
  }

  lemma LeaveContinues(layer: Layer, log: seq<Record>, a: Served, b: Served, probe: bool)
    requires Continues(log, a, b)
    ensures Continues(log, Leave(layer, a, probe), Leave(layer, b, probe))
  {}

  /** What a request adds to the log, and all else it does, is the same whatever was logged before. */
  lemma {:induction false} EarlierRecordsStay(layers: seq<Layer>, core: Core, w: World, probe: bool)
    ensures Continues(w.log, Serve(layers, core, w.(log := []), probe), Serve(layers, core, w, probe))
  {
    if layers == [] {
      CoreContinues(core, w);
    } else {
      EarlierRecordsStay(layers[1..], core, w, probe);
      var apart := Serve(layers[1..], core, w.(log := []), probe);
      LeaveContinues(layers[0], w.log, apart, Serve(layers[1..], core, w, probe), probe);
    }
  }

  // ---------------------------------------------------------------- the objects

  /** The ResponseWriter net/http hands to the outermost handler. */
  class Conn {
    var state: Connection

    constructor (broken: bool)
      ensures state == Connection(NOTHING, [], [], broken)
    {
      state := Connection(NOTHING, [], [], broken);
    }

    method Call(op: Op) returns (panicked: bool, failed: bool)
      modifies this
      ensures ConnStep(old(state), op) == ConnResult(state, panicked, failed)
    {
      var r := ConnStep(state, op);
      state := r.conn;
      return r.panicked, r.failed;
    }
  }

  class Log {
    var records: seq<Record>

    constructor ()
      ensures records == []
    {
      records := [];
    }

    method Add(r: Record)
      modifies this
      ensures records == old(records) + [r]
    {
      records := records + [r];
    }
  }

  /** Recorder: the status committed so far, over the writer it wraps. */
  class Recorder {
    const beneath: Conn
    var status: int
    var committed: bool

    constructor (w: Conn)
      ensures beneath == w && status == 0 && !committed
    {
      beneath, status, committed := w, 0, false;
    }

    function State(): Pair
      reads this, beneath
    {
      Pair(Committed(committed, status), beneath.state)
    }

    method WriteHeader(code: int) returns (panicked: bool)
      modifies this, beneath
      ensures Step(old(State()), Op.WriteHeader(code)) == StepResult(State(), panicked, false)
    {
      var final := code < 100 || code > 199 || code == 101;
      if final && !committed {
        status := code;
        committed := true;
      }
      var failed;
      panicked, failed := beneath.Call(Op.WriteHeader(code));
    }

    method Write(payload: Payload) returns (failed: bool)
      modifies this, beneath
      ensures Step(old(State()), Op.Write(payload)) == StepResult(State(), false, failed)
    {
      if !committed {
        status := 200;
        committed := true;
      }
      var panicked;
      panicked, failed := beneath.Call(Op.Write(payload));
    }

    method ReadFrom(size: nat) returns (failed: bool)
      modifies this, beneath
      ensures Step(old(State()), Op.ReadFrom(size)) == StepResult(State(), false, failed)
    {
      if !committed {
        status := 200;
        committed := true;
      }
      var panicked;
      panicked, failed := beneath.Call(Op.ReadFrom(size));
    }

    method FlushError(ok: bool) returns (failed: bool)
      modifies this, beneath
      ensures Step(old(State()), Op.Flush(ok)) == StepResult(State(), false, failed)
    {
      var panicked;
      panicked, failed := beneath.Call(Op.Flush(ok));
      if !failed && !committed {
        status := 200;
        committed := true;
      }
    }

    /** Problem.Write on the Recorder. */
    method SendProblem(code: int, encodes: bool) returns (panicked: bool, failed: bool)
      modifies this, beneath
      ensures ProblemSent(old(State()), code, encodes) == Sent(State(), panicked, failed)
    {
      failed := false;
      panicked := WriteHeader(code);
      if panicked {
        return;
      }
      if !encodes {
        failed := true;
        return;
      }
      failed := Write(ProblemDoc(code));
    }
  }

  /** An http.ResponseWriter: net/http's own, or a Recorder some layer already made. */
  datatype Writer = Raw(conn: Conn) | Wrapped(rec: Recorder)

  ghost function Footprint(w: Writer): set<object> {
    match w
    case Raw(conn) => {conn}
    case Wrapped(rec) => {rec, rec.beneath}
  }

  /** What serving over w starts from: a bare writer is about to get a Recorder with nothing seen. */
  ghost function PairOf(w: Writer): Pair
    reads Footprint(w)
  {
    match w
    case Raw(conn) => Pair(NOTHING, conn.state)
    case Wrapped(rec) => rec.State()
  }

  /** WrapWriter wraps once: every layer after the first gets the same Recorder back. */
  method WrapWriter(w: Writer) returns (rec: Recorder)
    ensures w.Wrapped? ==> rec == w.rec
    ensures w.Raw? ==> fresh(rec) && rec.beneath == w.conn
    ensures rec.State() == PairOf(w)
  {
    match w
    case Raw(conn) => rec := new Recorder(conn);
    case Wrapped(r) => rec := r;
  }

  method RunOn(w: Writer, ops: seq<Op>) returns (panicked: bool)
    modifies Footprint(w)
    ensures Run(old(PairOf(w)), ops).panicked == panicked
    ensures w.Wrapped? ==> Run(old(PairOf(w)), ops).pair == w.rec.State()
    ensures w.Raw? ==> Run(old(PairOf(w)), ops).pair.conn == w.conn.state
  {
    ghost var start := PairOf(w);
    var i := 0;
    while i < |ops|
      invariant 0 <= i <= |ops|
      invariant w.Wrapped? ==> Run(start, ops) == Run(w.rec.State(), ops[i..])
      invariant w.Raw? ==> ConnRun(start.conn, ops) == ConnRun(w.conn.state, ops[i..])
    {
      assert ops[i..][0] == ops[i] && ops[i..][1..] == ops[i + 1..];
      var failed;
      match w {
        case Raw(conn) =>
          panicked, failed := conn.Call(ops[i]);
        case Wrapped(rec) =>
          panicked := false;
          match ops[i] {
            case WriteHeader(code) => panicked := rec.WriteHeader(code);
            case Write(payload) => failed := rec.Write(payload);
            case ReadFrom(size) => failed := rec.ReadFrom(size);
            case Flush(ok) => failed := rec.FlushError(ok);
          }
      }
      if panicked {
        if w.Raw? { Transparent(start, ops); }
        return;
      }
      i := i + 1;
    }
    if w.Raw? { Transparent(start, ops); }
    return false;
  }

  /** Handle's adapted handler, and a plain one beside it. */
  method ServeHandler(core: Core, w: Writer, log: Log) returns (outcome: Outcome)
    modifies Footprint(w), log
    ensures var s := ServeCore(core, World(old(PairOf(w)), old(log.records)));
            && s.outcome == outcome && s.world.log == log.records
            && (w.Wrapped? ==> s.world.pair == w.rec.State())
            && (w.Raw? ==> s.world.pair.conn == w.conn.state)
  {
    if core.Plain? {
      var panicked := RunOn(w, core.ops);
      return if panicked then Panicked(OtherValue) else core.ending;
    }
    var rec := WrapWriter(w);
    var panicked := RunOn(Wrapped(rec), core.ops);
    if panicked {
      return Panicked(OtherValue);
    }
    if core.ending.Panicked? || core.fault.None? {
      return core.ending;
    }
    var fault := core.fault.value;
    if rec.committed {
      if !fault.readable {
        return Panicked(OtherValue);
      }
      log.Add(ErrorAfterCommit(rec.status));
      return Returned;
    }
    if fault.answer.NoAnswer? {
      return Panicked(OtherValue);
    }
    if fault.answer.status >= 500 {
      log.Add(ServerError(fault.answer.status));
    }
    var failed;
    panicked, failed := rec.SendProblem(fault.answer.status, fault.answer.encodes);
    if panicked {
      return Panicked(OtherValue);
    }
    if failed {
      log.Add(ProblemWriteFailed(rec.status));
    }
    return Returned;
  }

  /** One request through the stack of layers, each wrapping the writer it is given. */
  method ServeHTTP(layers: seq<Layer>, core: Core, w: Writer, log: Log, probe: bool) returns (outcome: Outcome)
    modifies Footprint(w), log
    decreases |layers|
    ensures var s := Serve(layers, core, World(old(PairOf(w)), old(log.records)), probe);
            && s.outcome == outcome && s.world.log == log.records
            && (w.Wrapped? ==> s.world.pair == w.rec.State())
            && (w.Raw? ==> s.world.pair.conn == w.conn.state)
  {
    if layers == [] {
      outcome := ServeHandler(core, w, log);
      return;
    }
    var rec := WrapWriter(w);
    outcome := ServeHTTP(layers[1..], core, Wrapped(rec), log, probe);
    match layers[0] {
      case RequestLogger =>
        var status := rec.status;
        if rec.committed {
        } else if outcome.Returned? {
          status := 200;
        } else {
          status := 500;
        }
        log.Add(Request(if probe && 200 <= status < 300 then Debug else Info, status));
      case Recoverer =>
        if outcome != Panicked(OtherValue) {
          return;
        }
        log.Add(HandlerPanicked(if rec.committed then Some(rec.status) else None));
        if rec.committed {
          return Panicked(AbortHandler);
        }
        var panicked, failed := rec.SendProblem(500, true);
        if failed {
          log.Add(ProblemWriteFailed(rec.status));
        }
        return Returned;
    }
  }

}
