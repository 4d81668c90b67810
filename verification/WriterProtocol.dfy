/**
 The protocol that Writer follows in external/easylogging++ (construct, initializeLogger, operator<<,
 processDispatch, triggerDispatch, LogDispatcher::dispatch): take the logger's lock, write into the logger's
 stream, take the lock of the storage, dispatch what the stream holds, release the storage, clear the stream,
 release the logger, and go on to the next logger of the list. The report of a missing logger is prepared under
 the lock of the storage, too.

 Threads interleave at the granularity of these steps. The mutexes are recursive, so a lock has an owner
 and a depth. Text is kept in pieces marked with the Writer that wrote them, so that mixing would show.
 */
module WriterProtocol {

  import opened Options

  type LoggerId = string
  type ThreadId = nat
  type WriterId = nat

  datatype Piece = Piece(writer: WriterId, text: string)

  datatype Message = Message(writer: WriterId, logger: LoggerId, text: seq<Piece>)

  datatype Lock = Free | Held(owner: ThreadId, depth: nat)

  /** What initializeLogger found out about one entry of the list. */
  datatype Verdict = Enabled | Disabled | Missing

  datatype Phase =
    | Initialize          // about to call initializeLogger for entry i
    | Report              // has the storage: the logger of entry i is not registered
    | Write(offered: nat) // between construct and the destructor; some of the chunks were offered to <<
    | Prepare             // at the top of the loop of processDispatch
    | Emit                // about to take the storage in order to dispatch what the stream holds
    | Deliver             // has the storage, about to hand the message over and release it
    | Clear               // about to empty the stream
    | Release             // about to release the lock
    | Done

  datatype Writer = Writer(
    thread: ThreadId,
    level: nat,              // position on its thread's stack of open Writers
    ids: seq<LoggerId>,      // m_loggerIds
    chunks: seq<string>,     // the operands of <<
    phase: Phase,
    i: nat,                  // the loop counter of processDispatch
    logger: Option<LoggerId>,// m_logger
    proceed: bool,           // m_proceed
    firstDispatched: bool,
    saved: seq<Piece>,       // logMessage
    verdicts: seq<Verdict>
  )

  datatype State = State(
    locks: map<LoggerId, Lock>,
    storage: Lock,
    streams: map<LoggerId, seq<Piece>>,
    writers: map<WriterId, Writer>,
    stacks: map<ThreadId, seq<WriterId>>,
    sent: seq<Message>,
    nextId: WriterId
  )

  const DEFAULT_LOGGER: LoggerId := "default"

  function LockOf(st: State, l: LoggerId): Lock {
    if l in st.locks then st.locks[l] else Free
  }

  function StreamOf(st: State, l: LoggerId): seq<Piece> {
    if l in st.streams then st.streams[l] else []
  }

  function StackOf(st: State, t: ThreadId): seq<WriterId> {
    if t in st.stacks then st.stacks[t] else []
  }

  predicate IsTop(st: State, t: ThreadId, id: WriterId) {
    var stack := StackOf(st, t);
    stack != [] && stack[|stack| - 1] == id
  }

  // ---------- Steps ----------

  /** A Writer comes to be, not yet initialized. */
  function Opened(t: ThreadId, level: nat, ids: seq<LoggerId>, chunks: seq<string>): Writer {
    Writer(t, level, ids, chunks, Initialize, 0, None, false, false, [], [])
  }

  /** The Writer that reports a missing logger. */
  function Reporter(t: ThreadId, level: nat, missing: LoggerId): Writer {
    Opened(t, level, [DEFAULT_LOGGER], ["Logger [", missing, "] is not registered yet!"])
  }

  function Push(st: State, w: Writer): State {
    st.(writers := st.writers[st.nextId := w],
        stacks := st.stacks[w.thread := StackOf(st, w.thread) + [st.nextId]],
        nextId := st.nextId + 1)
  }

  function Pop(st: State, t: ThreadId): State
    requires StackOf(st, t) != []
  {
    st.(stacks := st.stacks[t := StackOf(st, t)[..|StackOf(st, t)| - 1]])
  }

  function PutWriter(st: State, id: WriterId, w: Writer): State {
    st.(writers := st.writers[id := w])
  }

  function PutStream(st: State, l: LoggerId, s: seq<Piece>): State {
    st.(streams := st.streams[l := s])
  }

  /** acquireLock on a recursive mutex */
  predicate CanAcquire(lock: Lock, t: ThreadId) {
    lock.Free? || lock.owner == t
  }

  function Acquired(lock: Lock, t: ThreadId): Lock
    requires CanAcquire(lock, t)
  {
    if lock.Free? then Held(t, 1) else Held(t, lock.depth + 1)
  }

  function Released(lock: Lock): Lock {
    if lock.Free? || lock.depth <= 1 then Free else Held(lock.owner, lock.depth - 1)
  }

  /** What follows initializeLogger: the text is written only after the first. */
  function AfterInitialize(w: Writer): Phase {
    if w.i == 0 then Write(0) else Prepare
  }

  /** Going on to the next entry of the list, or ending. */
  function Advanced(w: Writer): Writer {
    if w.i + 1 < |w.ids| then w.(phase := Initialize, i := w.i + 1) else w.(phase := Done)
  }

  function Advance(st: State, id: WriterId, w: Writer): State
    requires StackOf(st, w.thread) != []
  {
    var st' := PutWriter(st, id, Advanced(w));
    if w.i + 1 < |w.ids| then st' else Pop(st', w.thread)
  }

  datatype Step =
    | Open(t: ThreadId, multiLoggerSupport: bool, ids: seq<LoggerId>, chunks: seq<string>)
    | Found(id: WriterId, enabled: bool)
    | NotFound(id: WriterId)
    | TellMissing(id: WriterId)
    | Offer(id: WriterId)
    | Close(id: WriterId)
    | Dispatch(id: WriterId)

  /** The step can be taken: the Writer is its thread's innermost one and is not waiting for a lock. */
  predicate CanTake(st: State, step: Step) {
    if step.Open? then step.ids != [] && StackOf(st, step.t) == []
    else
      step.id in st.writers &&
      var w := st.writers[step.id];
      IsTop(st, w.thread, step.id) && w.i < |w.ids| &&
      match step
      case Found(_, _) => w.phase.Initialize? && CanAcquire(LockOf(st, w.ids[w.i]), w.thread)
      case NotFound(_) => w.phase.Initialize? && CanAcquire(st.storage, w.thread)
      case TellMissing(_) => w.phase.Report?
      case Offer(_) => w.phase.Write? && w.phase.offered < |w.chunks|
      case Close(_) => w.phase.Write? && w.phase.offered >= |w.chunks|
      case Dispatch(_) =>
        || w.phase.Prepare?
        || (w.phase.Emit? && w.logger.Some? && CanAcquire(st.storage, w.thread))
        || ((w.phase.Deliver? || w.phase.Clear? || w.phase.Release?) && w.logger.Some?)
  }

  function Take(st: State, step: Step): State
    requires CanTake(st, step)
  {
    match step
    case Open(t, multi, ids, chunks) => Push(st, Opened(t, 0, if multi then ids else [ids[0]], chunks))
    case Found(id, enabled) => TakeFound(st, id, enabled)
    case NotFound(id) =>
      var w := st.writers[id];
      PutWriter(st.(storage := Acquired(st.storage, w.thread)), id, w.(phase := Report))
    case TellMissing(id) => TakeTellMissing(st, id)
    case Offer(id) => TakeOffer(st, id)
    case Close(id) => PutWriter(st, id, st.writers[id].(phase := Prepare))
    case Dispatch(id) =>
      var w := st.writers[id];
      match w.phase
      case Prepare => TakePrepare(st, id)
      case Emit => PutWriter(st.(storage := Acquired(st.storage, w.thread)), id, w.(phase := Deliver))
      case Deliver =>
        PutWriter(st.(storage := Released(st.storage)), id, w.(phase := Clear)).(
          sent := st.sent + [Message(id, w.logger.value, StreamOf(st, w.logger.value))])
      case Clear => PutStream(PutWriter(st, id, w.(phase := Release)), w.logger.value, [])
      case _ =>
        var l := w.logger.value;
        Advance(st.(locks := st.locks[l := Released(LockOf(st, l))]), id, w.(proceed := false))
  }

  /** initializeLogger with a registered logger: lock it, then ask whether the level is enabled. */
  function TakeFound(st: State, id: WriterId, enabled: bool): State
    requires CanTake(st, Found(id, enabled))
  {
    var w := st.writers[id];
    var l := w.ids[w.i];
    PutWriter(st.(locks := st.locks[l := Acquired(LockOf(st, l), w.thread)]), id,
              w.(logger := Some(l), proceed := enabled, phase := AfterInitialize(w),
                 verdicts := w.verdicts + [if enabled then Verdict.Enabled else Disabled]))
  }

  /** initializeLogger with an unknown logger: once the storage is released, a Writer to the default logger says so. */
  function TakeTellMissing(st: State, id: WriterId): State
    requires CanTake(st, TellMissing(id))
  {
    var w := st.writers[id];
    var w' := w.(logger := None, proceed := false, phase := AfterInitialize(w), verdicts := w.verdicts + [Missing]);
    Push(PutWriter(st.(storage := Released(st.storage)), id, w'),
         Reporter(w.thread, w.level + 1, w.ids[w.i]))
  }

  /** operator<< */
  function TakeOffer(st: State, id: WriterId): State
    requires CanTake(st, Offer(id))
  {
    var w := st.writers[id];
    var st' := PutWriter(st, id, w.(phase := Write(w.phase.offered + 1)));
    if w.proceed && w.logger.Some?
    then PutStream(st', w.logger.value, StreamOf(st, w.logger.value) + [Piece(id, w.chunks[w.phase.offered])])
    else st'
  }

  /** The top of the loop of processDispatch. */
  function TakePrepare(st: State, id: WriterId): State
    requires CanTake(st, Dispatch(id)) && st.writers[id].phase.Prepare?
  {
    var w := st.writers[id];
    if w.proceed && w.logger.Some? then
      var l := w.logger.value;
      if w.firstDispatched then
        PutStream(PutWriter(st, id, w.(phase := Emit)), l, StreamOf(st, l) + w.saved)
      else
        PutWriter(st, id, w.(phase := Emit, firstDispatched := true,
                             saved := if |w.ids| > 1 then StreamOf(st, l) else w.saved))
    else if w.logger.Some? then PutWriter(st, id, w.(phase := Clear))
    else Advance(st, id, w)
  }
}
