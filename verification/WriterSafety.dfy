/** What every interleaving of Writers keeps (see WriterProtocol), and what follows from it. */
module WriterSafety {

  import opened WriterProtocol
  import opened Options

  // ---------- What a Writer is meant to do ----------

  function Tagged(id: WriterId, chunks: seq<string>): seq<Piece> {
    if chunks == [] then [] else Tagged(id, chunks[..|chunks| - 1]) + [Piece(id, chunks[|chunks| - 1])]
  }

  /** What each dispatched message of the Writer is to hold: all its text if its first logger is enabled,
      and nothing if it is not, since then << writes nothing. */
  function Payload(id: WriterId, w: Writer): seq<Piece> {
    if w.verdicts != [] && w.verdicts[0] == Enabled then Tagged(id, w.chunks) else []
  }

  /** One message for each enabled one of the first `n` entries of the list, in order. */
  function Dispatches(id: WriterId, w: Writer, n: nat): seq<Message>
    requires n <= |w.verdicts| && n <= |w.ids|
  {
    if n == 0 then []
    else Dispatches(id, w, n - 1) + if w.verdicts[n - 1] == Enabled then [Message(id, w.ids[n - 1], Payload(id, w))] else []
  }

  function MessagesFrom(sent: seq<Message>, id: WriterId): seq<Message> {
    if sent == [] then []
    else MessagesFrom(sent[..|sent| - 1], id) + if sent[|sent| - 1].writer == id then [sent[|sent| - 1]] else []
  }

  // ---------- The invariant ----------

  /** initializeLogger is over for the entry at hand. */
  predicate Active(w: Writer) {
    !w.phase.Initialize? && !w.phase.Report? && !w.phase.Done?
  }

  /** The Writer has a logger's lock. */
  predicate Holding(w: Writer) {
    Active(w) && w.logger.Some?
  }

  /** Entries whose turn is over as far as dispatching goes. */
  function Settled(w: Writer): nat {
    if w.phase.Clear? || w.phase.Release? || w.phase.Done? then w.i + 1 else w.i
  }

  predicate AnyEnabled(verdicts: seq<Verdict>) {
    exists k :: 0 <= k < |verdicts| && verdicts[k] == Enabled
  }

  predicate WriterOk(id: WriterId, w: Writer) {
    && w.i < |w.ids|
    && |w.verdicts| == (if w.phase.Initialize? || w.phase.Report? then w.i else w.i + 1)
    && (w.phase.Done? ==> w.i + 1 == |w.ids|)
    && (Active(w) ==>
          && (w.logger.None? <==> w.verdicts[w.i] == Missing)
          && (w.logger.Some? ==> w.logger.value == w.ids[w.i])
          && (w.proceed <==> w.verdicts[w.i] == Enabled))
    && (w.phase.Write? ==> w.i == 0 && w.phase.offered <= |w.chunks|)
    && (w.phase.Emit? || w.phase.Deliver? ==> w.proceed)
    && (w.phase.Clear? || w.phase.Release? ==> w.logger.Some?)
    && (w.firstDispatched <==> AnyEnabled(w.verdicts[..if w.phase.Emit? || w.phase.Deliver? then w.i + 1 else Settled(w)]))
    && (w.firstDispatched && |w.ids| > 1 ==> w.saved == Payload(id, w))
  }

  /** What the stream of the logger held by a Writer holds. */
  function ExpectedStream(id: WriterId, w: Writer): seq<Piece>
    requires WriterOk(id, w) && Holding(w)
  {
    match w.phase
    case Write(k) => if w.proceed then Tagged(id, w.chunks[..k]) else []
    case Prepare => if w.i == 0 then Payload(id, w) else []
    case Emit => Payload(id, w)
    case Deliver => Payload(id, w)
    case Clear => if w.proceed then Payload(id, w) else []
    case _ => []
  }

  ghost predicate Writers(st: State) {
    forall id :: id in st.writers ==> id < st.nextId && WriterOk(id, st.writers[id])
  }

  ghost predicate StackEntryOk(st: State, t: ThreadId, j: int)
    requires 0 <= j < |StackOf(st, t)|
  {
    var id := StackOf(st, t)[j];
    && id in st.writers && st.writers[id].thread == t && st.writers[id].level == j
    && !st.writers[id].phase.Done?
    && (j < |StackOf(st, t)| - 1 ==> !Holding(st.writers[id]))
  }

  /** Open Writers are on their thread's stack, and only the innermost one holds a lock. */
  ghost predicate Stacks(st: State) {
    forall t, j :: 0 <= j < |StackOf(st, t)| ==> StackEntryOk(st, t, j)
  }

  ghost predicate Holders(st: State) {
    forall id :: id in st.writers && Holding(st.writers[id]) ==>
      && IsTop(st, st.writers[id].thread, id)
      && LockOf(st, st.writers[id].logger.value) == Held(st.writers[id].thread, 1)
  }

  ghost predicate HeldOk(st: State, l: LoggerId, t: ThreadId) {
    && StackOf(st, t) != []
    && var id := StackOf(st, t)[|StackOf(st, t)| - 1];
       id in st.writers && WriterOk(id, st.writers[id]) && Holding(st.writers[id]) && st.writers[id].logger == Some(l)
       && StreamOf(st, l) == ExpectedStream(id, st.writers[id])
  }

  /** A free logger's stream is empty; a held one is held once, by the innermost Writer of its owner,
      and its stream holds that Writer's text. */
  ghost predicate LockOk(st: State, l: LoggerId) {
    match LockOf(st, l)
    case Free => StreamOf(st, l) == []
    case Held(t, depth) => depth == 1 && HeldOk(st, l, t)
  }

  ghost predicate Locks(st: State) {
    forall l :: LockOk(st, l)
  }

  ghost predicate SentOk(sent: seq<Message>, id: WriterId, w: Writer) {
    WriterOk(id, w) && MessagesFrom(sent, id) == Dispatches(id, w, Settled(w))
  }

  /** Each Writer has sent exactly what it was meant to send so far. */
  ghost predicate Sent(st: State) {
    && (forall id :: id in st.writers ==> SentOk(st.sent, id, st.writers[id]))
    && (forall m :: m in st.sent ==> m.writer in st.writers)
  }

  /** The invariant without the storage. */
  ghost predicate Core(st: State) {
    Writers(st) && Stacks(st) && Holders(st) && Locks(st) && Sent(st)
  }

  // ---------- One Writer changes ----------

  lemma MessagesFromSnoc(sent: seq<Message>, m: Message, id: WriterId)
    ensures MessagesFrom(sent + [m], id) == MessagesFrom(sent, id) + if m.writer == id then [m] else []
  {}

  /** The log grows by at most one message, of the Writer that moves. */
  ghost predicate LogGrows(sent: seq<Message>, sent': seq<Message>, id: WriterId) {
    sent' == sent || (|sent'| == |sent| + 1 && sent' == sent + [sent'[|sent|]] && sent'[|sent|].writer == id)
  }

  lemma OthersSentTheSame(sent: seq<Message>, sent': seq<Message>, id: WriterId, other: WriterId)
    requires LogGrows(sent, sent', id) && other != id
    ensures MessagesFrom(sent', other) == MessagesFrom(sent, other)
  {
    if sent' != sent {
      MessagesFromSnoc(sent, sent'[|sent|], other);
    }
  }

  lemma SentKept(st: State, st': State, id: WriterId, w': Writer)
    requires Sent(st) && id in st.writers && st'.writers == st.writers[id := w'] && LogGrows(st.sent, st'.sent, id)
    requires SentOk(st'.sent, id, w')
    ensures Sent(st')
  {
    forall other | other in st'.writers ensures SentOk(st'.sent, other, st'.writers[other]) {
      if other != id {
        assert SentOk(st.sent, other, st.writers[other]);
        OthersSentTheSame(st.sent, st'.sent, id, other);
      }
    }
    forall m | m in st'.sent ensures m.writer in st'.writers {
      assert m in st.sent || m.writer == id;
    }
  }

  /** The Writer stays on its stack, and holds a lock only if it is innermost. */
  lemma StacksKept(st: State, st': State, id: WriterId, w': Writer)
    requires Stacks(st) && id in st.writers && st'.writers == st.writers[id := w'] && st'.stacks == st.stacks
    requires w'.thread == st.writers[id].thread && w'.level == st.writers[id].level && !w'.phase.Done?
    requires Holding(w') ==> IsTop(st, w'.thread, id)
    ensures Stacks(st')
  {
    forall t, j | 0 <= j < |StackOf(st', t)| ensures StackEntryOk(st', t, j) {
      assert StackOf(st', t) == StackOf(st, t) && StackEntryOk(st, t, j);
      if StackOf(st, t)[j] == id && Holding(w') {
        assert StackEntryOk(st, t, |StackOf(st, t)| - 1);
      }
    }
  }

  /** Locks held by other threads are none of this Writer's business. */
  lemma OtherLockKept(st: State, st': State, id: WriterId, w': Writer, k: LoggerId)
    requires LockOk(st, k) && id in st.writers && st'.writers == st.writers[id := w']
    requires LockOf(st', k) == LockOf(st, k) && StreamOf(st', k) == StreamOf(st, k)
    requires LockOf(st, k).Held? ==>
             var t := LockOf(st, k).owner; StackOf(st', t) == StackOf(st, t) && !IsTop(st, t, id)
    ensures LockOk(st', k)
  {}

  // ---------- Moving while holding a lock ----------

  /** A move of the Writer that holds `l` keeps the invariant, if it leaves the Writer, the stream and the
      log as they should be. */
  lemma MoveKeepsCore(st: State, st': State, id: WriterId, w': Writer, l: LoggerId)
    requires Core(st) && id in st.writers && Holding(st.writers[id]) && st.writers[id].logger == Some(l)
    requires st'.locks == st.locks && st'.stacks == st.stacks && st'.nextId == st.nextId
    requires st'.writers == st.writers[id := w'] && (forall k :: k != l ==> StreamOf(st', k) == StreamOf(st, k))
    requires WriterOk(id, w') && Holding(w') && w'.logger == Some(l)
    requires w'.thread == st.writers[id].thread && w'.level == st.writers[id].level
    requires StreamOf(st', l) == ExpectedStream(id, w')
    requires LogGrows(st.sent, st'.sent, id) && SentOk(st'.sent, id, w')
    ensures Core(st')
  {
    SentKept(st, st', id, w');
    HolderIsTop(st, id);
    StacksKept(st, st', id, w');
    MoveKeepsHolders(st, st', id, w', l);
    MoveKeepsLocks(st, st', id, w', l);
  }

  /** The same for a move that replaces the stream of `l` and leaves the log alone. */
  lemma WriteKeepsCore(st: State, id: WriterId, w': Writer, l: LoggerId, stream: seq<Piece>)
    requires Core(st) && id in st.writers && Holding(st.writers[id]) && st.writers[id].logger == Some(l)
    requires SentOk(st.sent, id, w') && Holding(w') && w'.logger == Some(l)
    requires w'.thread == st.writers[id].thread && w'.level == st.writers[id].level
    requires stream == ExpectedStream(id, w')
    ensures Core(PutStream(PutWriter(st, id, w'), l, stream))
  {
    MoveKeepsCore(st, PutStream(PutWriter(st, id, w'), l, stream), id, w', l);
  }

  /** The same for a move that leaves the streams and the log alone. */
  lemma StayKeepsCore(st: State, id: WriterId, w': Writer, l: LoggerId)
    requires Core(st) && id in st.writers && Holding(st.writers[id]) && st.writers[id].logger == Some(l)
    requires SentOk(st.sent, id, w') && Holding(w') && w'.logger == Some(l)
    requires w'.thread == st.writers[id].thread && w'.level == st.writers[id].level
    requires StreamOf(st, l) == ExpectedStream(id, w')
    ensures Core(PutWriter(st, id, w'))
  {
    MoveKeepsCore(st, PutWriter(st, id, w'), id, w', l);
  }

  lemma HolderIsTop(st: State, id: WriterId)
    requires Holders(st) && id in st.writers && Holding(st.writers[id])
    ensures IsTop(st, st.writers[id].thread, id)
    ensures LockOf(st, st.writers[id].logger.value) == Held(st.writers[id].thread, 1)
  {}

  lemma MoveKeepsLocks(st: State, st': State, id: WriterId, w': Writer, l: LoggerId)
    requires Locks(st) && id in st.writers
    requires LockOf(st, l) == Held(w'.thread, 1) && IsTop(st, w'.thread, id)
    requires st'.locks == st.locks && st'.stacks == st.stacks
    requires st'.writers == st.writers[id := w'] && (forall k :: k != l ==> StreamOf(st', k) == StreamOf(st, k))
    requires WriterOk(id, w') && Holding(w') && w'.logger == Some(l) && StreamOf(st', l) == ExpectedStream(id, w')
    requires Holding(st.writers[id]) && st.writers[id].logger == Some(l) && Stacks(st)
    ensures Locks(st')
  {
    forall k ensures LockOk(st', k) {
      assert LockOk(st, k);
      if k != l {
        OtherLockKept(st, st', id, w', k);
      }
    }
  }

  lemma MoveKeepsHolders(st: State, st': State, id: WriterId, w': Writer, l: LoggerId)
    requires Holders(st) && id in st.writers && Holding(st.writers[id]) && st.writers[id].logger == Some(l)
    requires st'.locks == st.locks && st'.stacks == st.stacks && st'.writers == st.writers[id := w']
    requires Holding(w') && w'.logger == Some(l) && w'.thread == st.writers[id].thread
    ensures Holders(st')
  {}

  // ---------- Taking a lock ----------

  /** No other thread's lock is affected by a Writer that holds none. */
  lemma IdleWriterOwnsNothing(st: State, id: WriterId, k: LoggerId)
    requires Locks(st) && id in st.writers && !Holding(st.writers[id]) && IsTop(st, st.writers[id].thread, id)
    ensures LockOf(st, k).Held? ==> LockOf(st, k).owner != st.writers[id].thread
    ensures LockOf(st, k).Free? ==> StreamOf(st, k) == []
  {
    assert LockOk(st, k);
  }

  lemma AcquireKeepsCore(st: State, st': State, id: WriterId, w': Writer, l: LoggerId)
    requires Core(st) && id in st.writers && !Holding(st.writers[id]) && IsTop(st, st.writers[id].thread, id)
    requires CanAcquire(LockOf(st, l), w'.thread)
    requires st' == PutWriter(st.(locks := st.locks[l := Acquired(LockOf(st, l), w'.thread)]), id, w')
    requires WriterOk(id, w') && Holding(w') && w'.logger == Some(l) && ExpectedStream(id, w') == []
    requires w'.thread == st.writers[id].thread && w'.level == st.writers[id].level && SentOk(st.sent, id, w')
    ensures Core(st')
  {
    SentKept(st, st', id, w');
    StacksKept(st, st', id, w');
    IdleWriterOwnsNothing(st, id, l);
    AcquireKeepsHolders(st, st', id, w', l);
    AcquireKeepsLocks(st, st', id, w', l);
  }

  lemma AcquireKeepsLocks(st: State, st': State, id: WriterId, w': Writer, l: LoggerId)
    requires Stacks(st) && Locks(st) && id in st.writers && !Holding(st.writers[id]) && IsTop(st, st.writers[id].thread, id)
    requires LockOf(st, l).Free? && st' == PutWriter(st.(locks := st.locks[l := Held(w'.thread, 1)]), id, w')
    requires WriterOk(id, w') && Holding(w') && w'.logger == Some(l) && ExpectedStream(id, w') == []
    requires w'.thread == st.writers[id].thread
    ensures Locks(st')
  {
    forall k ensures LockOk(st', k) {
      IdleWriterOwnsNothing(st, id, k);
      assert LockOk(st, k);
      if k != l { OthersLockKept(st, st', id, w', k); }
    }
  }

  lemma OthersLockKept(st: State, st': State, id: WriterId, w': Writer, k: LoggerId)
    requires Stacks(st) && LockOk(st, k) && id in st.writers && st'.writers == st.writers[id := w']
    requires LockOf(st', k) == LockOf(st, k) && StreamOf(st', k) == StreamOf(st, k)
    requires LockOf(st, k).Held? ==>
             LockOf(st, k).owner != st.writers[id].thread && StackOf(st', LockOf(st, k).owner) == StackOf(st, LockOf(st, k).owner)
    ensures LockOk(st', k)
  {
    if LockOf(st, k).Held? {
      var t := LockOf(st, k).owner;
      assert StackEntryOk(st, t, |StackOf(st, t)| - 1);
      OtherLockKept(st, st', id, w', k);
    }
  }

  lemma AcquireKeepsHolders(st: State, st': State, id: WriterId, w': Writer, l: LoggerId)
    requires Holders(st) && id in st.writers && IsTop(st, st.writers[id].thread, id) && LockOf(st, l).Free?
    requires st' == PutWriter(st.(locks := st.locks[l := Held(w'.thread, 1)]), id, w')
    requires w'.logger == Some(l) && w'.thread == st.writers[id].thread
    ensures Holders(st')
  {}

  // ---------- Moving without a lock ----------

  lemma IdleMoveKeepsCore(st: State, st': State, id: WriterId, w': Writer)
    requires Core(st) && id in st.writers && !Holding(st.writers[id]) && IsTop(st, st.writers[id].thread, id)
    requires st' == PutWriter(st, id, w') && WriterOk(id, w') && !Holding(w') && !w'.phase.Done?
    requires w'.thread == st.writers[id].thread && w'.level == st.writers[id].level && SentOk(st.sent, id, w')
    ensures Core(st')
  {
    SentKept(st, st', id, w');
    StacksKept(st, st', id, w');
    IdleMoveKeepsHolders(st, st', id, w');
    forall k ensures LockOk(st', k) {
      IdleWriterOwnsNothing(st, id, k);
      assert LockOk(st, k);
      OthersLockKept(st, st', id, w', k);
    }
  }

  lemma IdleMoveKeepsHolders(st: State, st': State, id: WriterId, w': Writer)
    requires Holders(st) && id in st.writers && st' == PutWriter(st, id, w') && !Holding(w')
    ensures Holders(st')
  {}

  // ---------- Opening and ending a Writer ----------

  lemma {:induction false} NoMessagesYet(sent: seq<Message>, id: WriterId)
    requires forall m :: m in sent ==> m.writer != id
    ensures MessagesFrom(sent, id) == []
    decreases |sent|
  {
    if sent != [] {
      NoMessagesYet(sent[..|sent| - 1], id);
    }
  }

  /** A new Writer may be opened on a thread whose innermost Writer, if any, holds no lock. */
  lemma PushKeepsCore(st: State, w: Writer)
    requires Core(st) && w.ids != [] && w == Opened(w.thread, |StackOf(st, w.thread)|, w.ids, w.chunks)
    requires forall id :: id in st.writers && IsTop(st, w.thread, id) ==> !Holding(st.writers[id])
    ensures Core(Push(st, w))
  {
    PushKeepsStacks(st, w);
    PushKeepsSent(st, w);
    PushKeepsHolders(st, w);
    PushKeepsLocks(st, w);
  }

  lemma PushKeepsHolders(st: State, w: Writer)
    requires Writers(st) && Holders(st) && !Holding(w)
    requires forall id :: id in st.writers && IsTop(st, w.thread, id) ==> !Holding(st.writers[id])
    ensures Holders(Push(st, w))
  {
    var st' := Push(st, w);
    forall other | other in st'.writers && Holding(st'.writers[other])
      ensures IsTop(st', st'.writers[other].thread, other)
      ensures LockOf(st', st'.writers[other].logger.value) == Held(st'.writers[other].thread, 1)
    {
      assert other != st.nextId && st'.writers[other] == st.writers[other];
      HolderIsTop(st, other);
      var t := st.writers[other].thread;
      assert t != w.thread && StackOf(st', t) == StackOf(st, t);
    }
  }

  lemma PushKeepsLocks(st: State, w: Writer)
    requires Writers(st) && Locks(st)
    requires forall id :: id in st.writers && IsTop(st, w.thread, id) ==> !Holding(st.writers[id])
    ensures Locks(Push(st, w))
  {
    var st' := Push(st, w);
    forall k ensures LockOk(st', k) {
      assert LockOk(st, k);
      if LockOf(st, k).Held? {
        var t := LockOf(st, k).owner;
        assert t != w.thread && StackOf(st', t) == StackOf(st, t);
        assert StackOf(st, t)[|StackOf(st, t)| - 1] != st.nextId;
      }
    }
  }

  lemma PushKeepsStacks(st: State, w: Writer)
    requires Writers(st) && Stacks(st) && w == Opened(w.thread, |StackOf(st, w.thread)|, w.ids, w.chunks)
    requires forall id :: id in st.writers && IsTop(st, w.thread, id) ==> !Holding(st.writers[id])
    ensures Stacks(Push(st, w))
  {
    var st' := Push(st, w);
    forall t, j | 0 <= j < |StackOf(st', t)| ensures StackEntryOk(st', t, j) {
      if t != w.thread || j < |StackOf(st, t)| {
        assert StackEntryOk(st, t, j) && StackOf(st', t)[j] == StackOf(st, t)[j];
        assert StackOf(st, t)[j] != st.nextId;
      }
    }
  }

  lemma PushKeepsSent(st: State, w: Writer)
    requires Writers(st) && Sent(st) && w.ids != [] && w == Opened(w.thread, w.level, w.ids, w.chunks)
    ensures Sent(Push(st, w)) && Writers(Push(st, w))
  {
    var st' := Push(st, w);
    assert WriterOk(st.nextId, w);
    NoMessagesYet(st.sent, st.nextId);
    forall id | id in st'.writers ensures SentOk(st'.sent, id, st'.writers[id]) {
      if id != st.nextId { assert SentOk(st.sent, id, st.writers[id]); }
    }
  }

  /** Ending the turn of a Writer: it gives up `l` if it holds it, and goes on or is done. */
  lemma AdvanceKeepsCore(st: State, locks: map<LoggerId, Lock>, id: WriterId, w: Writer)
    requires Core(st) && id in st.writers && IsTop(st, st.writers[id].thread, id)
    requires w.thread == st.writers[id].thread && w.level == st.writers[id].level && w.i < |w.ids|
    requires WriterOk(id, Advanced(w)) && SentOk(st.sent, id, Advanced(w))
    requires if Holding(st.writers[id])
             then var l := st.writers[id].logger.value; StreamOf(st, l) == [] && locks == st.locks[l := Free]
             else locks == st.locks
    ensures Core(Advance(st.(locks := locks), id, w))
  {
    var mid := st.(locks := locks);
    var st' := Advance(mid, id, w);
    SentKept(st, st', id, Advanced(w));
    AdvanceKeepsStacks(st, locks, id, w);
    AdvanceKeepsHolders(st, locks, id, w);
    AdvanceKeepsLocks(st, locks, id, w);
  }

  lemma AdvanceKeepsStacks(st: State, locks: map<LoggerId, Lock>, id: WriterId, w: Writer)
    requires Stacks(st) && id in st.writers && IsTop(st, st.writers[id].thread, id)
    requires w.thread == st.writers[id].thread && w.level == st.writers[id].level
    ensures Stacks(Advance(st.(locks := locks), id, w))
  {
    var st' := Advance(st.(locks := locks), id, w);
    forall t, j | 0 <= j < |StackOf(st', t)| ensures StackEntryOk(st', t, j) {
      assert StackEntryOk(st, t, j) && StackOf(st', t)[j] == StackOf(st, t)[j];
      if StackOf(st, t)[j] == id {
        assert StackEntryOk(st, w.thread, |StackOf(st, w.thread)| - 1);
      }
    }
  }

  lemma AdvanceKeepsHolders(st: State, locks: map<LoggerId, Lock>, id: WriterId, w: Writer)
    requires Holders(st) && id in st.writers && IsTop(st, st.writers[id].thread, id) && w.thread == st.writers[id].thread
    requires locks == st.locks || (Holding(st.writers[id]) && locks == st.locks[st.writers[id].logger.value := Free])
    ensures Holders(Advance(st.(locks := locks), id, w))
  {
    var st' := Advance(st.(locks := locks), id, w);
    forall other | other in st'.writers && Holding(st'.writers[other])
      ensures IsTop(st', st'.writers[other].thread, other)
      ensures LockOf(st', st'.writers[other].logger.value) == Held(st'.writers[other].thread, 1)
    {
      assert other != id && st'.writers[other] == st.writers[other];
      HolderIsTop(st, other);
      assert st.writers[other].thread != w.thread;
      if Holding(st.writers[id]) { HolderIsTop(st, id); }
    }
  }

  lemma AdvanceKeepsLocks(st: State, locks: map<LoggerId, Lock>, id: WriterId, w: Writer)
    requires Locks(st) && Stacks(st) && Holders(st)
    requires id in st.writers && IsTop(st, st.writers[id].thread, id) && w.thread == st.writers[id].thread
    requires if Holding(st.writers[id])
             then var l := st.writers[id].logger.value; StreamOf(st, l) == [] && locks == st.locks[l := Free]
             else locks == st.locks
    ensures Locks(Advance(st.(locks := locks), id, w))
  {
    var st' := Advance(st.(locks := locks), id, w);
    forall k ensures LockOk(st', k) {
      assert LockOk(st, k);
      if !(Holding(st.writers[id]) && st.writers[id].logger == Some(k)) {
        assert LockOf(st, k).Held? ==> LockOf(st, k).owner != w.thread;
        OthersLockKept(st, st', id, Advanced(w), k);
      }
    }
  }

  // ---------- Every step keeps the invariant ----------

  lemma TaggedSnoc(id: WriterId, chunks: seq<string>, k: nat)
    requires k < |chunks|
    ensures Tagged(id, chunks[..k + 1]) == Tagged(id, chunks[..k]) + [Piece(id, chunks[k])]
  {
    assert chunks[..k + 1][..k] == chunks[..k];
  }

  lemma AnyEnabledSnoc(verdicts: seq<Verdict>, k: nat)
    requires k < |verdicts|
    ensures AnyEnabled(verdicts[..k + 1]) <==> AnyEnabled(verdicts[..k]) || verdicts[k] == Enabled
  {}

  lemma {:induction false} DispatchesFixed(id: WriterId, w: Writer, w': Writer, n: nat)
    requires n <= |w.verdicts| && n <= |w.ids| && w'.ids == w.ids && w'.chunks == w.chunks
    requires w.verdicts <= w'.verdicts
    ensures Dispatches(id, w', n) == Dispatches(id, w, n)
    decreases n
  {
    if n > 0 {
      DispatchesFixed(id, w, w', n - 1);
    }
  }

  /** The Writer as initializeLogger leaves it. */
  function Initialized(w: Writer, verdict: Verdict): Writer
    requires w.i < |w.ids|
  {
    w.(logger := if verdict == Missing then None else Some(w.ids[w.i]), proceed := verdict == Enabled,
       phase := AfterInitialize(w), verdicts := w.verdicts + [verdict])
  }

  lemma InitializedWriterIsOk(id: WriterId, w: Writer, verdict: Verdict)
    requires WriterOk(id, w) && (w.phase.Initialize? || w.phase.Report?)
    ensures WriterOk(id, Initialized(w, verdict)) && Settled(Initialized(w, verdict)) == Settled(w) == w.i
  {
    var w' := Initialized(w, verdict);
    var before := w.verdicts[..w.i];
    assert w'.verdicts[..w.i] == before == w.verdicts && w'.verdicts[w.i] == verdict;
    assert AnyEnabled(before) ==> w.i > 0;
    assert w.i > 0 ==> w'.verdicts[0] == w.verdicts[0] && Payload(id, w') == Payload(id, w);
  }

  lemma InitializedIsOk(sent: seq<Message>, id: WriterId, w: Writer, verdict: Verdict)
    requires SentOk(sent, id, w) && (w.phase.Initialize? || w.phase.Report?)
    ensures SentOk(sent, id, Initialized(w, verdict))
    ensures Holding(Initialized(w, verdict)) ==> ExpectedStream(id, Initialized(w, verdict)) == []
  {
    var w' := Initialized(w, verdict);
    InitializedWriterIsOk(id, w, verdict);
    DispatchesFixed(id, w, w', w.i);
    assert w'.chunks[..0] == [];
  }

  lemma FoundKeepsCore(st: State, id: WriterId, enabled: bool)
    requires Core(st) && CanTake(st, Found(id, enabled))
    ensures Core(TakeFound(st, id, enabled))
  {
    var w := st.writers[id];
    var verdict := if enabled then Verdict.Enabled else Disabled;
    assert SentOk(st.sent, id, w);
    InitializedIsOk(st.sent, id, w, verdict);
    AcquireKeepsCore(st, TakeFound(st, id, enabled), id, Initialized(w, verdict), w.ids[w.i]);
  }

  /** Nothing but the storage's own part of the invariant speaks of the storage. */
  lemma StorageIsApart(st: State, storage: Lock)
    requires Core(st)
    ensures Core(st.(storage := storage))
  {
    var st' := st.(storage := storage);
    assert Stacks(st') by { StacksApart(st, st'); }
    assert Locks(st') by { LocksApart(st, st'); }
    assert Sent(st') by {
      forall id | id in st'.writers ensures SentOk(st'.sent, id, st'.writers[id]) { assert SentOk(st.sent, id, st.writers[id]); }
    }
    assert Holders(st') by {
      forall id | id in st'.writers && Holding(st'.writers[id])
        ensures IsTop(st', st'.writers[id].thread, id)
        ensures LockOf(st', st'.writers[id].logger.value) == Held(st'.writers[id].thread, 1) { HolderIsTop(st, id); }
    }
  }

  lemma StacksApart(st: State, st': State)
    requires Stacks(st) && st'.stacks == st.stacks && st'.writers == st.writers
    ensures Stacks(st')
  {
    forall t, j | 0 <= j < |StackOf(st', t)| ensures StackEntryOk(st', t, j) { assert StackEntryOk(st, t, j); }
  }

  lemma LocksApart(st: State, st': State)
    requires Locks(st) && st'.locks == st.locks && st'.streams == st.streams
    requires st'.stacks == st.stacks && st'.writers == st.writers
    ensures Locks(st')
  {
    forall l ensures LockOk(st', l) { assert LockOk(st, l); }
  }

  lemma NotFoundKeepsCore(st: State, id: WriterId)
    requires Core(st) && CanTake(st, NotFound(id))
    ensures Core(Take(st, NotFound(id)))
  {
    var w := st.writers[id];
    var w', mid := w.(phase := Report), st.(storage := Acquired(st.storage, w.thread));
    assert SentOk(st.sent, id, w);
    DispatchesFixed(id, w, w', w.i);
    StorageIsApart(st, Acquired(st.storage, w.thread));
    IdleMoveKeepsCore(mid, PutWriter(mid, id, w'), id, w');
  }

  /** The first half of telling: the storage is released and the verdict noted. */
  lemma MissingIsNoted(st: State, id: WriterId, st': State)
    requires Core(st) && CanTake(st, TellMissing(id))
    requires st' == PutWriter(st.(storage := Released(st.storage)), id, Initialized(st.writers[id], Missing))
    ensures Core(st')
  {
    var w, mid := st.writers[id], st.(storage := Released(st.storage));
    assert SentOk(st.sent, id, w);
    InitializedIsOk(st.sent, id, w, Missing);
    StorageIsApart(st, Released(st.storage));
    IdleMoveKeepsCore(mid, st', id, Initialized(w, Missing));
  }

  lemma TellMissingIs(st: State, id: WriterId, st': State)
    requires CanTake(st, TellMissing(id))
    requires st' == PutWriter(st.(storage := Released(st.storage)), id, Initialized(st.writers[id], Missing))
    ensures TakeTellMissing(st, id) == Push(st', Reporter(st.writers[id].thread, st.writers[id].level + 1,
                                                          st.writers[id].ids[st.writers[id].i]))
    ensures id in st'.writers && IsTop(st', st.writers[id].thread, id) && !Holding(st'.writers[id])
    ensures StackOf(st', st.writers[id].thread) == StackOf(st, st.writers[id].thread)
  {}

  lemma LevelOfTop(st: State, id: WriterId)
    requires Stacks(st) && id in st.writers && IsTop(st, st.writers[id].thread, id)
    ensures st.writers[id].level + 1 == |StackOf(st, st.writers[id].thread)|
  {
    assert StackEntryOk(st, st.writers[id].thread, |StackOf(st, st.writers[id].thread)| - 1);
  }

  lemma TellMissingKeepsCore(st: State, id: WriterId)
    requires Core(st) && CanTake(st, TellMissing(id))
    ensures Core(TakeTellMissing(st, id))
  {
    var w := st.writers[id];
    var st' := PutWriter(st.(storage := Released(st.storage)), id, Initialized(w, Missing));
    TellMissingIs(st, id, st');
    LevelOfTop(st, id);
    MissingIsNoted(st, id, st');
    PushOnIdleKeepsCore(st', id, Reporter(w.thread, w.level + 1, w.ids[w.i]));
  }

  /** A Writer may be opened on top of an innermost one that has no lock. */
  lemma PushOnIdleKeepsCore(st: State, id: WriterId, w: Writer)
    requires Core(st) && id in st.writers && IsTop(st, w.thread, id) && !Holding(st.writers[id])
    requires w.ids != [] && w == Opened(w.thread, |StackOf(st, w.thread)|, w.ids, w.chunks)
    ensures Core(Push(st, w))
  {
    PushKeepsCore(st, w);
  }

  lemma OpenKeepsCore(st: State, step: Step)
    requires Core(st) && step.Open? && CanTake(st, step)
    ensures Core(Take(st, step))
  {
    PushKeepsCore(st, Opened(step.t, 0, if step.multiLoggerSupport then step.ids else [step.ids[0]], step.chunks));
  }

  /** The stream of a held logger holds what its holder should have written. */
  lemma HeldStream(st: State, id: WriterId)
    requires Locks(st) && Holders(st) && id in st.writers && Holding(st.writers[id])
    ensures WriterOk(id, st.writers[id]) && StreamOf(st, st.writers[id].logger.value) == ExpectedStream(id, st.writers[id])
  {
    HolderIsTop(st, id);
    assert LockOk(st, st.writers[id].logger.value);
  }

  /** A Writer that has not settled another entry has sent what it should have sent. */
  lemma SentStays(sent: seq<Message>, id: WriterId, w: Writer, w': Writer)
    requires SentOk(sent, id, w) && WriterOk(id, w') && Settled(w') == Settled(w)
    requires w'.ids == w.ids && w'.chunks == w.chunks && w.verdicts <= w'.verdicts
    ensures SentOk(sent, id, w')
  {
    DispatchesFixed(id, w, w', Settled(w));
  }

  lemma OfferedWriterIsOk(id: WriterId, w: Writer, w': Writer)
    requires WriterOk(id, w) && w.phase.Write? && w.phase.offered < |w.chunks|
    requires w' == w.(phase := Write(w.phase.offered + 1))
    ensures WriterOk(id, w')
    ensures Holding(w) ==>
            ExpectedStream(id, w') ==
            ExpectedStream(id, w) + if w.proceed then [Piece(id, w.chunks[w.phase.offered])] else []
  {
    TaggedSnoc(id, w.chunks, w.phase.offered);
  }

  lemma OfferedIsOk(sent: seq<Message>, id: WriterId, w: Writer, w': Writer)
    requires SentOk(sent, id, w) && w.phase.Write? && w.phase.offered < |w.chunks|
    requires w' == w.(phase := Write(w.phase.offered + 1))
    ensures SentOk(sent, id, w')
    ensures Holding(w) ==>
            ExpectedStream(id, w') ==
            ExpectedStream(id, w) + if w.proceed then [Piece(id, w.chunks[w.phase.offered])] else []
  {
    OfferedWriterIsOk(id, w, w');
    SentStays(sent, id, w, w');
  }

  lemma SentSoFar(st: State, id: WriterId, w: Writer)
    requires Sent(st) && id in st.writers && w == st.writers[id]
    ensures SentOk(st.sent, id, w)
  {}

  lemma IdleOfferKeepsCore(st: State, id: WriterId, w: Writer, w': Writer)
    requires Core(st) && CanTake(st, Offer(id)) && w == st.writers[id] && !Holding(w)
    requires w' == w.(phase := Write(w.phase.offered + 1))
    ensures Core(PutWriter(st, id, w'))
  {
    SentSoFar(st, id, w);
    OfferedIsOk(st.sent, id, w, w');
    IdleMoveKeepsCore(st, PutWriter(st, id, w'), id, w');
  }

  lemma HeldOfferKeepsCore(st: State, id: WriterId, w: Writer, w': Writer, l: LoggerId, stream: seq<Piece>)
    requires Core(st) && CanTake(st, Offer(id)) && w == st.writers[id] && Holding(w) && w.logger == Some(l)
    requires w' == w.(phase := Write(w.phase.offered + 1))
    requires stream == StreamOf(st, l) + if w.proceed then [Piece(id, w.chunks[w.phase.offered])] else []
    ensures Core(PutStream(PutWriter(st, id, w'), l, stream))
  {
    SentSoFar(st, id, w);
    OfferedIsOk(st.sent, id, w, w');
    assert StreamOf(st, l) == ExpectedStream(id, w) by { HeldStream(st, id); }
    WriteKeepsCore(st, id, w', l, stream);
  }

  lemma DisabledOfferKeepsCore(st: State, id: WriterId, w: Writer, w': Writer, l: LoggerId)
    requires Core(st) && CanTake(st, Offer(id)) && w == st.writers[id] && Holding(w) && w.logger == Some(l) && !w.proceed
    requires w' == w.(phase := Write(w.phase.offered + 1))
    ensures Core(PutWriter(st, id, w'))
  {
    SentSoFar(st, id, w);
    OfferedIsOk(st.sent, id, w, w');
    assert StreamOf(st, l) == ExpectedStream(id, w) by { HeldStream(st, id); }
    StayKeepsCore(st, id, w', l);
  }

  lemma OfferKeepsCore(st: State, id: WriterId)
    requires Core(st) && CanTake(st, Offer(id))
    ensures Core(TakeOffer(st, id))
  {
    var w := st.writers[id];
    var w' := w.(phase := Write(w.phase.offered + 1));
    if !Holding(w) {
      IdleOfferKeepsCore(st, id, w, w');
    } else if w.proceed {
      var l := w.logger.value;
      HeldOfferKeepsCore(st, id, w, w', l, StreamOf(st, l) + [Piece(id, w.chunks[w.phase.offered])]);
    } else {
      DisabledOfferKeepsCore(st, id, w, w', w.logger.value);
    }
  }

  lemma ClosedWriterIsOk(id: WriterId, w: Writer, w': Writer)
    requires WriterOk(id, w) && w.phase.Write? && w' == w.(phase := Prepare)
    ensures WriterOk(id, w')
  {}

  lemma ClosedIsOk(sent: seq<Message>, id: WriterId, w: Writer, w': Writer)
    requires SentOk(sent, id, w) && w.phase.Write? && w.phase.offered >= |w.chunks| && w' == w.(phase := Prepare)
    ensures SentOk(sent, id, w')
    ensures Holding(w) ==> ExpectedStream(id, w') == ExpectedStream(id, w)
  {
    assert w.chunks[..w.phase.offered] == w.chunks;
    ClosedWriterIsOk(id, w, w');
    SentStays(sent, id, w, w');
  }

  lemma CloseKeepsCore(st: State, id: WriterId)
    requires Core(st) && CanTake(st, Close(id))
    ensures Core(Take(st, Close(id)))
  {
    var w, st' := st.writers[id], Take(st, Close(id));
    var w' := w.(phase := Prepare);
    assert SentOk(st.sent, id, w);
    ClosedIsOk(st.sent, id, w, w');
    if Holding(w) {
      HeldStream(st, id);
      StayKeepsCore(st, id, w', w.logger.value);
    } else {
      IdleMoveKeepsCore(st, st', id, w');
    }
  }

  // ---------- The loop of processDispatch ----------

  /** The Writer as the top of the loop leaves it when it goes on to dispatch. */
  function Prepared(w: Writer, stream: seq<Piece>): Writer {
    w.(phase := Emit, firstDispatched := true,
       saved := if !w.firstDispatched && |w.ids| > 1 then stream else w.saved)
  }

  /** Whoever has dispatched before is past its first logger, and that one was enabled or wrote nothing. */
  lemma SavedIsPayload(id: WriterId, w: Writer)
    requires WriterOk(id, w) && w.phase.Prepare? && Holding(w) && w.proceed
    ensures w.firstDispatched ==> w.i > 0 && w.saved == Payload(id, w)
    ensures ExpectedStream(id, w) == if w.i == 0 then Payload(id, w) else []
    ensures !w.firstDispatched && w.i > 0 ==> Payload(id, w) == []
  {
    if w.i > 0 {
      assert w.verdicts[..w.i][0] == w.verdicts[0];
    }
  }

  lemma PreparedWriterIsOk(id: WriterId, w: Writer, w': Writer)
    requires WriterOk(id, w) && w.phase.Prepare? && Holding(w) && w.proceed
    requires w' == Prepared(w, ExpectedStream(id, w))
    ensures WriterOk(id, w') && Payload(id, w') == Payload(id, w)
  {
    SavedIsPayload(id, w);
    AnyEnabledSnoc(w.verdicts, w.i);
  }

  lemma PreparedIsOk(sent: seq<Message>, id: WriterId, w: Writer, w': Writer)
    requires SentOk(sent, id, w) && w.phase.Prepare? && Holding(w) && w.proceed
    requires w' == Prepared(w, ExpectedStream(id, w))
    ensures SentOk(sent, id, w')
    ensures ExpectedStream(id, w') == if w.firstDispatched then ExpectedStream(id, w) + w.saved else ExpectedStream(id, w)
  {
    PreparedWriterIsOk(id, w, w');
    SentStays(sent, id, w, w');
    SavedIsPayload(id, w);
  }

  lemma FirstDispatchKeepsCore(st: State, id: WriterId)
    requires Core(st) && CanTake(st, Dispatch(id)) && st.writers[id].phase.Prepare?
    requires Holding(st.writers[id]) && st.writers[id].proceed && !st.writers[id].firstDispatched
    ensures Core(TakePrepare(st, id))
  {
    var w := st.writers[id];
    assert SentOk(st.sent, id, w);
    HeldStream(st, id);
    var w' := Prepared(w, StreamOf(st, w.logger.value));
    PreparedIsOk(st.sent, id, w, w');
    StayKeepsCore(st, id, w', w.logger.value);
  }

  lemma LaterDispatchKeepsCore(st: State, id: WriterId)
    requires Core(st) && CanTake(st, Dispatch(id)) && st.writers[id].phase.Prepare?
    requires Holding(st.writers[id]) && st.writers[id].proceed && st.writers[id].firstDispatched
    ensures Core(TakePrepare(st, id))
  {
    var w := st.writers[id];
    var w', l := w.(phase := Emit), w.logger.value;
    assert SentOk(st.sent, id, w);
    HeldStream(st, id);
    assert w' == Prepared(w, StreamOf(st, l));
    PreparedIsOk(st.sent, id, w, w');
    WriteKeepsCore(st, id, w', l, StreamOf(st, l) + w.saved);
  }

  lemma SkippedIsOk(sent: seq<Message>, id: WriterId, w: Writer, w': Writer)
    requires SentOk(sent, id, w) && w.phase.Prepare? && Holding(w) && !w.proceed && w' == w.(phase := Clear)
    ensures SentOk(sent, id, w') && ExpectedStream(id, w) == ExpectedStream(id, w') == []
  {
    SkippedWriterIsOk(id, w, w');
    SkippedSendsNothing(id, w, w');
  }

  lemma SkippedWriterIsOk(id: WriterId, w: Writer, w': Writer)
    requires WriterOk(id, w) && w.phase.Prepare? && Holding(w) && !w.proceed && w' == w.(phase := Clear)
    ensures WriterOk(id, w') && ExpectedStream(id, w) == ExpectedStream(id, w') == []
  {
    AnyEnabledSnoc(w.verdicts, w.i);
    assert w.verdicts[..w.i + 1] == w.verdicts;
  }

  lemma SkippedSendsNothing(id: WriterId, w: Writer, w': Writer)
    requires WriterOk(id, w) && w.phase.Prepare? && Holding(w) && !w.proceed && w' == w.(phase := Clear)
    ensures Dispatches(id, w', w.i + 1) == Dispatches(id, w, w.i)
  {
    DispatchesFixed(id, w, w', w.i);
  }

  lemma SkippedKeepsCore(st: State, id: WriterId)
    requires Core(st) && CanTake(st, Dispatch(id)) && st.writers[id].phase.Prepare?
    requires Holding(st.writers[id]) && !st.writers[id].proceed
    ensures Core(TakePrepare(st, id))
  {
    var w, w' := st.writers[id], st.writers[id].(phase := Clear);
    assert SentOk(st.sent, id, w);
    HeldStream(st, id);
    SkippedIsOk(st.sent, id, w, w');
    StayKeepsCore(st, id, w', w.logger.value);
  }

  lemma EmitKeepsCore(st: State, id: WriterId)
    requires Core(st) && CanTake(st, Dispatch(id)) && st.writers[id].phase.Emit?
    ensures Core(Take(st, Dispatch(id)))
  {
    var w := st.writers[id];
    var w', mid, l := w.(phase := Deliver), st.(storage := Acquired(st.storage, w.thread)), w.logger.value;
    SentSoFar(st, id, w);
    assert StreamOf(st, l) == ExpectedStream(id, w) by { HeldStream(st, id); }
    EmittingIsOk(st.sent, id, w, w');
    StorageIsApart(st, Acquired(st.storage, w.thread));
    StayKeepsCore(mid, id, w', l);
  }

  lemma EmittingIsOk(sent: seq<Message>, id: WriterId, w: Writer, w': Writer)
    requires SentOk(sent, id, w) && w.phase.Emit? && Holding(w) && w' == w.(phase := Deliver)
    ensures SentOk(sent, id, w') && ExpectedStream(id, w') == ExpectedStream(id, w)
  {
    EmittingWriterIsOk(id, w, w');
    SentStays(sent, id, w, w');
  }

  lemma EmittingWriterIsOk(id: WriterId, w: Writer, w': Writer)
    requires WriterOk(id, w) && w.phase.Emit? && Holding(w) && w' == w.(phase := Deliver)
    ensures WriterOk(id, w') && ExpectedStream(id, w') == ExpectedStream(id, w)
  {}

  lemma DeliveredIsOk(sent: seq<Message>, id: WriterId, w: Writer, w': Writer, m: Message)
    requires SentOk(sent, id, w) && w.phase.Deliver? && Holding(w) && w' == w.(phase := Clear)
    requires m == Message(id, w.logger.value, ExpectedStream(id, w))
    ensures SentOk(sent + [m], id, w') && ExpectedStream(id, w') == ExpectedStream(id, w)
  {
    DeliveredWriterIsOk(id, w, w');
    DeliveredSends(id, w, w', m);
    MessagesFromSnoc(sent, m, id);
  }

  lemma DeliveredWriterIsOk(id: WriterId, w: Writer, w': Writer)
    requires WriterOk(id, w) && w.phase.Deliver? && Holding(w) && w' == w.(phase := Clear)
    ensures WriterOk(id, w') && ExpectedStream(id, w') == ExpectedStream(id, w) == Payload(id, w)
  {}

  lemma DeliveredSends(id: WriterId, w: Writer, w': Writer, m: Message)
    requires WriterOk(id, w) && w.phase.Deliver? && Holding(w) && w' == w.(phase := Clear)
    requires m == Message(id, w.logger.value, Payload(id, w))
    ensures Dispatches(id, w', w.i + 1) == Dispatches(id, w, w.i) + [m]
  {
    DispatchesFixed(id, w, w', w.i);
  }

  lemma DeliverKeepsCore(st: State, id: WriterId)
    requires Core(st) && CanTake(st, Dispatch(id)) && st.writers[id].phase.Deliver?
    ensures Core(Take(st, Dispatch(id)))
  {
    var w, w' := st.writers[id], st.writers[id].(phase := Clear);
    assert SentOk(st.sent, id, w);
    HeldStream(st, id);
    DeliveredIsOk(st.sent, id, w, w', Message(id, w.logger.value, StreamOf(st, w.logger.value)));
    MoveKeepsCore(st, Take(st, Dispatch(id)), id, w', w.logger.value);
  }

  lemma ClearedIsOk(sent: seq<Message>, id: WriterId, w: Writer, w': Writer)
    requires SentOk(sent, id, w) && w.phase.Clear? && w' == w.(phase := Release)
    ensures SentOk(sent, id, w') && Holding(w') && ExpectedStream(id, w') == []
  {
    DispatchesFixed(id, w, w', w.i + 1);
  }

  lemma ClearKeepsCore(st: State, id: WriterId)
    requires Core(st) && CanTake(st, Dispatch(id)) && st.writers[id].phase.Clear?
    ensures Core(Take(st, Dispatch(id)))
  {
    var w, w' := st.writers[id], st.writers[id].(phase := Release);
    assert SentOk(st.sent, id, w);
    ClearedIsOk(st.sent, id, w, w');
    WriteKeepsCore(st, id, w', w.logger.value, []);
  }

  /** The end of a turn leaves the Writer ready for the next one, or done. */
  lemma AdvancedIsOk(sent: seq<Message>, id: WriterId, w: Writer, proceed: bool)
    requires SentOk(sent, id, w) && (w.phase.Release? || (w.phase.Prepare? && w.logger.None?))
    ensures SentOk(sent, id, Advanced(w.(proceed := proceed)))
  {
    AdvancedWriterIsOk(id, w, proceed);
    DispatchesFixed(id, w, Advanced(w.(proceed := proceed)), w.i + 1);
  }

  lemma AdvancedWriterIsOk(id: WriterId, w: Writer, proceed: bool)
    requires WriterOk(id, w) && (w.phase.Release? || (w.phase.Prepare? && w.logger.None?))
    ensures WriterOk(id, Advanced(w.(proceed := proceed)))
  {}

  lemma ReleaseKeepsCore(st: State, id: WriterId)
    requires Core(st) && CanTake(st, Dispatch(id)) && st.writers[id].phase.Release?
    ensures Core(Take(st, Dispatch(id)))
  {
    var w := st.writers[id];
    assert SentOk(st.sent, id, w);
    HeldStream(st, id);
    HolderIsTop(st, id);
    AdvancedIsOk(st.sent, id, w, false);
    AdvanceKeepsCore(st, st.locks[w.logger.value := Free], id, w.(proceed := false));
  }

  lemma MissingKeepsCore(st: State, id: WriterId)
    requires Core(st) && CanTake(st, Dispatch(id)) && st.writers[id].phase.Prepare? && st.writers[id].logger.None?
    ensures Core(TakePrepare(st, id))
  {
    var w := st.writers[id];
    assert SentOk(st.sent, id, w);
    AdvancedIsOk(st.sent, id, w, w.proceed);
    AdvanceKeepsCore(st, st.locks, id, w);
    assert w.(proceed := w.proceed) == w && st.(locks := st.locks) == st;
  }

  lemma StepKeepsCore(st: State, step: Step)
    requires Core(st) && CanTake(st, step)
    ensures Core(Take(st, step))
  {
    match step
    case Open(_, _, _, _) => OpenKeepsCore(st, step);
    case Found(id, enabled) => FoundKeepsCore(st, id, enabled);
    case NotFound(id) => NotFoundKeepsCore(st, id);
    case TellMissing(id) => TellMissingKeepsCore(st, id);
    case Offer(id) => OfferKeepsCore(st, id);
    case Close(id) => CloseKeepsCore(st, id);
    case Dispatch(id) => DispatchKeepsCore(st, id);
  }

  lemma DispatchKeepsCore(st: State, id: WriterId)
    requires Core(st) && CanTake(st, Dispatch(id))
    ensures Core(Take(st, Dispatch(id)))
  {
    var w := st.writers[id];
    if w.phase.Emit? {
      EmitKeepsCore(st, id);
    } else if w.phase.Deliver? {
      DeliverKeepsCore(st, id);
    } else if w.phase.Clear? {
      ClearKeepsCore(st, id);
    } else if w.phase.Release? {
      ReleaseKeepsCore(st, id);
    } else if w.logger.None? {
      MissingKeepsCore(st, id);
    } else if w.proceed && w.firstDispatched {
      LaterDispatchKeepsCore(st, id);
    } else if w.proceed {
      FirstDispatchKeepsCore(st, id);
    } else {
      SkippedKeepsCore(st, id);
    }
  }

  // ---------- The storage ----------

  predicate HasStorage(w: Writer) {
    w.phase.Report? || w.phase.Deliver?
  }

  /** The storage is held once, by the innermost Writer of its owner, and only to report or to deliver. */
  ghost predicate Storage(st: State) {
    && (forall id :: id in st.writers && HasStorage(st.writers[id]) ==>
          IsTop(st, st.writers[id].thread, id) && st.storage == Held(st.writers[id].thread, 1))
    && (st.storage.Held? ==> st.storage.depth == 1 && OwnerHasStorage(st, st.storage.owner))
  }

  ghost predicate OwnerHasStorage(st: State, t: ThreadId) {
    exists id :: id in st.writers && st.writers[id].thread == t && IsTop(st, t, id) && HasStorage(st.writers[id])
  }

  ghost predicate Inv(st: State) {
    Core(st) && Storage(st)
  }

  /** An innermost Writer without the storage has no part in it. */
  lemma StorageIsElsewhere(st: State, id: WriterId)
    requires Storage(st) && id in st.writers && IsTop(st, st.writers[id].thread, id) && !HasStorage(st.writers[id])
    ensures st.storage.Held? ==> st.storage.owner != st.writers[id].thread
    ensures forall other :: other in st.writers && HasStorage(st.writers[other])
                            ==> st.writers[other].thread != st.writers[id].thread
  {}

  /** A step of an innermost Writer that neither has nor takes the storage. */
  lemma StorageKept(st: State, st': State, id: WriterId, w': Writer)
    requires Storage(st) && id in st.writers && IsTop(st, st.writers[id].thread, id) && !HasStorage(st.writers[id])
    requires st'.storage == st.storage && st'.writers == st.writers[id := w'] && !HasStorage(w')
    requires forall t :: t != st.writers[id].thread ==> StackOf(st', t) == StackOf(st, t)
    ensures Storage(st')
  {
    StorageIsElsewhere(st, id);
    if st.storage.Held? {
      var t := st.storage.owner;
      var owner :| owner in st.writers && st.writers[owner].thread == t && IsTop(st, t, owner) && HasStorage(st.writers[owner]);
      assert owner in st'.writers && IsTop(st', t, owner) && HasStorage(st'.writers[owner]);
    }
  }

  /** Taking the storage. */
  lemma StorageTaken(st: State, id: WriterId, w': Writer)
    requires Storage(st) && id in st.writers && IsTop(st, st.writers[id].thread, id) && !HasStorage(st.writers[id])
    requires w'.thread == st.writers[id].thread && HasStorage(w') && CanAcquire(st.storage, w'.thread)
    ensures Storage(PutWriter(st.(storage := Acquired(st.storage, w'.thread)), id, w'))
  {
    var st' := PutWriter(st.(storage := Acquired(st.storage, w'.thread)), id, w');
    StorageIsElsewhere(st, id);
    assert id in st'.writers && IsTop(st', w'.thread, id) && HasStorage(st'.writers[id]);
  }

  /** Releasing it. */
  lemma StorageReleased(st: State, st': State, id: WriterId, w': Writer)
    requires Storage(st) && id in st.writers && HasStorage(st.writers[id])
    requires st'.storage == Released(st.storage) && st'.writers == st.writers[id := w'] && !HasStorage(w')
    ensures Storage(st')
  {
    forall other | other in st.writers && HasStorage(st.writers[other]) ensures other == id {
      assert st.writers[other].thread == st.writers[id].thread;
    }
  }

  lemma StoragePushed(st: State, w: Writer)
    requires Storage(st) && Writers(st) && !HasStorage(w)
    requires forall id :: id in st.writers && IsTop(st, w.thread, id) ==> !HasStorage(st.writers[id])
    ensures Storage(Push(st, w))
  {
    var st' := Push(st, w);
    forall id | id in st'.writers && HasStorage(st'.writers[id])
      ensures IsTop(st', st'.writers[id].thread, id) && st'.storage == Held(st'.writers[id].thread, 1)
    {
      assert id != st.nextId && st'.writers[id] == st.writers[id];
      assert st.writers[id].thread != w.thread;
    }
    if st.storage.Held? {
      var t := st.storage.owner;
      var owner :| owner in st.writers && st.writers[owner].thread == t && IsTop(st, t, owner) && HasStorage(st.writers[owner]);
      assert t != w.thread && owner != st.nextId;
      assert owner in st'.writers && IsTop(st', t, owner) && HasStorage(st'.writers[owner]);
    }
  }

  lemma TellMissingKeepsStorage(st: State, id: WriterId)
    requires Inv(st) && CanTake(st, TellMissing(id))
    ensures Storage(TakeTellMissing(st, id))
  {
    var w := st.writers[id];
    var w' := w.(logger := None, proceed := false, phase := AfterInitialize(w), verdicts := w.verdicts + [Missing]);
    var st' := PutWriter(st.(storage := Released(st.storage)), id, w');
    StorageReleased(st, st', id, w');
    assert WriterOk(id, w);
    assert Writers(st') by { assert SentOk(st.sent, id, w); InitializedIsOk(st.sent, id, w, Missing); }
    StoragePushed(st', Reporter(w.thread, w.level + 1, w.ids[w.i]));
  }

  lemma AdvanceKeepsStorage(st: State, locks: map<LoggerId, Lock>, id: WriterId, w: Writer)
    requires Storage(st) && id in st.writers && IsTop(st, st.writers[id].thread, id) && !HasStorage(st.writers[id])
    requires w.thread == st.writers[id].thread
    ensures Storage(Advance(st.(locks := locks), id, w))
  {
    StorageKept(st, Advance(st.(locks := locks), id, w), id, Advanced(w));
  }

  lemma PrepareKeepsStorage(st: State, id: WriterId)
    requires Storage(st) && CanTake(st, Dispatch(id)) && st.writers[id].phase.Prepare?
    ensures Storage(TakePrepare(st, id))
  {
    var w, st' := st.writers[id], TakePrepare(st, id);
    if w.logger.None? {
      assert st.(locks := st.locks) == st;
      AdvanceKeepsStorage(st, st.locks, id, w);
    } else {
      StorageKept(st, st', id, st'.writers[id]);
    }
  }

  lemma DispatchKeepsStorage(st: State, id: WriterId)
    requires Storage(st) && CanTake(st, Dispatch(id))
    ensures Storage(Take(st, Dispatch(id)))
  {
    var w := st.writers[id];
    if w.phase.Emit? {
      StorageTaken(st, id, w.(phase := Deliver));
    } else if w.phase.Deliver? {
      StorageReleased(st, Take(st, Dispatch(id)), id, w.(phase := Clear));
    } else if w.phase.Prepare? {
      PrepareKeepsStorage(st, id);
    } else if w.phase.Clear? {
      StorageKept(st, Take(st, Dispatch(id)), id, w.(phase := Release));
    } else {
      var l := w.logger.value;
      AdvanceKeepsStorage(st, st.locks[l := Released(LockOf(st, l))], id, w.(proceed := false));
    }
  }

  lemma FoundKeepsStorage(st: State, id: WriterId, enabled: bool)
    requires Storage(st) && CanTake(st, Found(id, enabled))
    ensures Storage(TakeFound(st, id, enabled))
  {
    StorageKept(st, TakeFound(st, id, enabled), id, TakeFound(st, id, enabled).writers[id]);
  }

  lemma OfferKeepsStorage(st: State, id: WriterId)
    requires Storage(st) && CanTake(st, Offer(id))
    ensures Storage(TakeOffer(st, id))
  {
    StorageKept(st, TakeOffer(st, id), id, TakeOffer(st, id).writers[id]);
  }

  lemma StepKeepsStorage(st: State, step: Step)
    requires Inv(st) && CanTake(st, step)
    ensures Storage(Take(st, step))
  {
    match step
    case Open(t, multi, ids, chunks) => StoragePushed(st, Opened(t, 0, if multi then ids else [ids[0]], chunks));
    case Found(id, enabled) => FoundKeepsStorage(st, id, enabled);
    case NotFound(id) => StorageTaken(st, id, st.writers[id].(phase := Report));
    case TellMissing(id) => TellMissingKeepsStorage(st, id);
    case Offer(id) => OfferKeepsStorage(st, id);
    case Close(id) => StorageKept(st, Take(st, step), id, st.writers[id].(phase := Prepare));
    case Dispatch(id) => DispatchKeepsStorage(st, id);
  }

  /** Every step of every Writer keeps the invariant. */
  lemma StepKeepsInv(st: State, step: Step)
    requires Inv(st) && CanTake(st, step)
    ensures Inv(Take(st, step))
  {
    StepKeepsCore(st, step);
    StepKeepsStorage(st, step);
  }

  // ---------- Runs ----------

  const START: State := State(map[], Free, map[], map[], map[], [], 0)

  /** The steps can be taken one after the other, from `st` on. */
  ghost predicate IsRun(st: State, steps: seq<Step>)
    decreases |steps|
  {
    steps == [] || (CanTake(st, steps[0]) && IsRun(Take(st, steps[0]), steps[1..]))
  }

  ghost function After(st: State, steps: seq<Step>): State
    requires IsRun(st, steps)
    decreases |steps|
  {
    if steps == [] then st else After(Take(st, steps[0]), steps[1..])
  }

  lemma {:induction false} RunKeepsInv(st: State, steps: seq<Step>)
    requires Inv(st) && IsRun(st, steps)
    ensures Inv(After(st, steps))
    decreases |steps|
  {
    if steps != [] {
      StepKeepsInv(st, steps[0]);
      RunKeepsInv(Take(st, steps[0]), steps[1..]);
    }
  }

  /** `st` can be reached by some interleaving of threads. */
  ghost predicate Reachable(st: State) {
    exists steps :: IsRun(START, steps) && After(START, steps) == st
  }

  /** Every interleaving of threads keeps the invariant. */
  lemma EveryRunIsSafe(st: State)
    requires Reachable(st)
    ensures Inv(st)
  {
    var steps :| IsRun(START, steps) && After(START, steps) == st;
    RunKeepsInv(START, steps);
  }

  /** The locks are recursive: their owner can always take them once more, nobody else can, and releasing undoes it. */
  lemma LocksAreRecursive(lock: Lock, t: ThreadId)
    requires lock.Held? ==> lock.depth >= 1
    ensures CanAcquire(lock, t) <==> (forall u, d :: lock == Held(u, d) ==> u == t)
    ensures CanAcquire(lock, t) ==> Acquired(lock, t).Held? && Acquired(lock, t).owner == t && Released(Acquired(lock, t)) == lock
  {}

  // ---------- What the invariant means ----------

  /** Whenever a logger's lock is free its stream is empty; no lock is ever taken twice over, and no thread
      ever has two. */
  lemma LocksAndStreams(st: State, k: LoggerId, l: LoggerId)
    requires Reachable(st)
    ensures LockOf(st, k).Free? ==> StreamOf(st, k) == []
    ensures LockOf(st, k).Held? ==> LockOf(st, k).depth == 1
    ensures LockOf(st, k).Held? && LockOf(st, l) == LockOf(st, k) ==> k == l
  {
    EveryRunIsSafe(st);
    assert LockOk(st, k) && LockOk(st, l);
  }

  /** How often a thread has locked a logger. */
  function Depth(st: State, l: LoggerId, t: ThreadId): nat {
    match LockOf(st, l)
    case Free => 0
    case Held(owner, depth) => if owner == t then depth else 0
  }

  /** A thread has locked exactly the logger of its innermost Writer, once, and only while that Writer is
      between initializeLogger and the release. In particular it has locked nothing when a Writer opens,
      while an outer Writer waits for an inner one, and when a Writer is done. */
  lemma LockDepths(st: State, t: ThreadId, l: LoggerId)
    requires Reachable(st)
    ensures Depth(st, l, t) == if exists id :: id in st.writers && IsTop(st, t, id) && Holding(st.writers[id])
                                               && st.writers[id].logger == Some(l) then 1 else 0
  {
    EveryRunIsSafe(st);
    assert LockOk(st, l);
    if id :| id in st.writers && IsTop(st, t, id) && Holding(st.writers[id]) && st.writers[id].logger == Some(l) {
      HolderIsTop(st, id);
      assert StackEntryOk(st, t, |StackOf(st, t)| - 1);
    }
  }

  lemma {:induction false} MessageIsListed(sent: seq<Message>, m: Message)
    requires m in sent
    ensures m in MessagesFrom(sent, m.writer)
    decreases |sent|
  {
    if m != sent[|sent| - 1] {
      MessageIsListed(sent[..|sent| - 1], m);
    }
  }

  lemma {:induction false} DispatchHoldsPayload(id: WriterId, w: Writer, n: nat, m: Message)
    requires n <= |w.verdicts| && n <= |w.ids| && m in Dispatches(id, w, n)
    ensures m.text == Payload(id, w)
    decreases n
  {
    if m in Dispatches(id, w, n - 1) {
      DispatchHoldsPayload(id, w, n - 1, m);
    }
  }

  lemma {:induction false} TaggedBy(id: WriterId, chunks: seq<string>, p: Piece)
    requires p in Tagged(id, chunks)
    ensures p.writer == id
    decreases |chunks|
  {
    if p in Tagged(id, chunks[..|chunks| - 1]) {
      TaggedBy(id, chunks[..|chunks| - 1], p);
    }
  }

  /** No text of one Writer ever gets into a message of another: a message holds its Writer's whole text, or
      nothing. */
  lemma NoTextMixes(st: State, m: Message, p: Piece)
    requires Reachable(st) && m in st.sent
    ensures m.writer in st.writers && m.text == Payload(m.writer, st.writers[m.writer])
    ensures p in m.text ==> p.writer == m.writer
  {
    EveryRunIsSafe(st);
    var w := st.writers[m.writer];
    assert SentOk(st.sent, m.writer, w);
    MessageIsListed(st.sent, m);
    DispatchHoldsPayload(m.writer, w, Settled(w), m);
    if p in m.text { TaggedBy(m.writer, w.chunks, p); }
  }

  /** A Writer that is done has dispatched once for each enabled entry of its list, in order and always the
      same text; nothing for a disabled or missing one. The text is all it was given if the first logger
      was enabled, and empty if it was not. */
  lemma DoneWriterDispatchedItsList(st: State, id: WriterId)
    requires Reachable(st) && id in st.writers && st.writers[id].phase.Done?
    ensures var w := st.writers[id];
            && |w.verdicts| == |w.ids| > 0
            && MessagesFrom(st.sent, id) == Dispatches(id, w, |w.ids|)
            && Payload(id, w) == if w.verdicts[0] == Enabled then Tagged(id, w.chunks) else []
  {
    EveryRunIsSafe(st);
    assert SentOk(st.sent, id, st.writers[id]);
  }

  /** When no Writer is open, every lock is free and every stream is empty. */
  lemma QuietMeansEmpty(st: State, l: LoggerId)
    requires Reachable(st) && forall t :: StackOf(st, t) == []
    ensures st.storage.Free? && LockOf(st, l).Free? && StreamOf(st, l) == []
  {
    EveryRunIsSafe(st);
    assert LockOk(st, l);
  }

  lemma OwnerGoesOn(st: State, id: WriterId)
    requires id in st.writers && HasStorage(st.writers[id]) && WriterOk(id, st.writers[id])
    requires IsTop(st, st.writers[id].thread, id)
    ensures CanTake(st, TellMissing(id)) || CanTake(st, Dispatch(id))
  {}

  /** Whoever has the storage is innermost, has it once and waits for nothing. */
  lemma StorageIsInnermost(st: State, id: WriterId)
    requires Reachable(st) && id in st.writers && HasStorage(st.writers[id])
    ensures IsTop(st, st.writers[id].thread, id) && st.storage == Held(st.writers[id].thread, 1)
    ensures CanTake(st, TellMissing(id)) || CanTake(st, Dispatch(id))
  {
    assert Storage(st) by { EveryRunIsSafe(st); }
    assert WriterOk(id, st.writers[id]) by { EveryRunIsSafe(st); }
    OwnerGoesOn(st, id);
  }

  /** Whoever waits for a logger has neither a logger nor the storage. So locks are taken in one order: a logger, then
      the storage. */
  lemma WaitingHoldsNothing(st: State, id: WriterId, l: LoggerId)
    requires Reachable(st) && id in st.writers && st.writers[id].phase.Initialize? && IsTop(st, st.writers[id].thread, id)
    ensures st.storage != Held(st.writers[id].thread, 1) && Depth(st, l, st.writers[id].thread) == 0
  {
    EveryRunIsSafe(st);
    StorageIsElsewhere(st, id);
    IdleWriterOwnsNothing(st, id, l);
  }

  /** The step fits what is registered: a Writer finds exactly the registered loggers. */
  predicate Fits(st: State, step: Step, registered: LoggerId -> bool)
    requires CanTake(st, step)
  {
    match step
    case Found(id, _) => registered(st.writers[id].ids[st.writers[id].i])
    case NotFound(id) => !registered(st.writers[id].ids[st.writers[id].i])
    case _ => true
  }

  /** Some open Writer can go on. */
  ghost predicate SomeStep(st: State, registered: LoggerId -> bool) {
    exists step: Step :: !step.Open? && CanTake(st, step) && Fits(st, step, registered)
  }

  /** The locks cannot deadlock: while some Writer is open, some Writer can take a step, whatever loggers are
      registered. */
  lemma SomeWriterCanStep(st: State, t: ThreadId, registered: LoggerId -> bool)
    requires Reachable(st) && StackOf(st, t) != []
    ensures SomeStep(st, registered)
  {
    EveryRunIsSafe(st);
    TopIsOpen(st, t);
    var id := StackOf(st, t)[|StackOf(st, t)| - 1];
    if st.writers[id].phase.Initialize? {
      InitializingCanStep(st, id, registered);
    } else if HasStorage(st.writers[id]) {
      StorageOwnerCanStep(st, registered);
    } else {
      ActiveCanStep(st, id, registered);
    }
  }

  lemma TopIsOpen(st: State, t: ThreadId)
    requires Writers(st) && Stacks(st) && StackOf(st, t) != []
    ensures var id := StackOf(st, t)[|StackOf(st, t)| - 1];
            id in st.writers && st.writers[id].thread == t && !st.writers[id].phase.Done? && WriterOk(id, st.writers[id])
  {
    assert StackEntryOk(st, t, |StackOf(st, t)| - 1);
  }

  /** Whoever has the storage waits for nothing. */
  lemma StorageOwnerCanStep(st: State, registered: LoggerId -> bool)
    requires Inv(st) && st.storage.Held?
    ensures SomeStep(st, registered)
  {
    var t := st.storage.owner;
    var id :| id in st.writers && st.writers[id].thread == t && IsTop(st, t, id) && HasStorage(st.writers[id]);
    assert WriterOk(id, st.writers[id]);
    if st.writers[id].phase.Report? {
      assert CanTake(st, TellMissing(id)) && Fits(st, TellMissing(id), registered);
    } else {
      assert CanTake(st, Dispatch(id)) && Fits(st, Dispatch(id), registered);
    }
  }

  /** Whoever has a logger waits for the storage at most. */
  lemma ActiveCanStep(st: State, id: WriterId, registered: LoggerId -> bool)
    requires Inv(st) && id in st.writers && Active(st.writers[id]) && IsTop(st, st.writers[id].thread, id)
    ensures SomeStep(st, registered)
  {
    var w := st.writers[id];
    assert WriterOk(id, w);
    if w.phase.Write? && w.phase.offered < |w.chunks| {
      assert CanTake(st, Offer(id)) && Fits(st, Offer(id), registered);
    } else if w.phase.Write? {
      assert CanTake(st, Close(id)) && Fits(st, Close(id), registered);
    } else if w.phase.Emit? && st.storage.Held? {
      StorageOwnerCanStep(st, registered);
    } else {
      assert CanTake(st, Dispatch(id)) && Fits(st, Dispatch(id), registered);
    }
  }

  /** Whoever waits for a logger waits for a Writer that has it. */
  lemma InitializingCanStep(st: State, id: WriterId, registered: LoggerId -> bool)
    requires Inv(st) && id in st.writers && st.writers[id].phase.Initialize? && IsTop(st, st.writers[id].thread, id)
    ensures SomeStep(st, registered)
  {
    var w := st.writers[id];
    assert WriterOk(id, w);
    var l := w.ids[w.i];
    if !registered(l) {
      if st.storage.Held? {
        StorageOwnerCanStep(st, registered);
      } else {
        assert CanTake(st, NotFound(id)) && Fits(st, NotFound(id), registered);
      }
    } else if LockOf(st, l).Free? {
      assert CanTake(st, Found(id, true)) && Fits(st, Found(id, true), registered);
    } else {
      LockOwnerCanStep(st, l, registered);
    }
  }

  lemma OwnerIsActive(st: State, l: LoggerId, t: ThreadId)
    requires Core(st) && LockOf(st, l).Held? && t == LockOf(st, l).owner
    ensures StackOf(st, t) != []
    ensures var id := StackOf(st, t)[|StackOf(st, t)| - 1];
            id in st.writers && st.writers[id].thread == t && Active(st.writers[id])
  {
    assert LockOk(st, l);
    TopIsOpen(st, t);
  }

  lemma LockOwnerCanStep(st: State, l: LoggerId, registered: LoggerId -> bool)
    requires Inv(st) && LockOf(st, l).Held?
    ensures SomeStep(st, registered)
  {
    var t := LockOf(st, l).owner;
    OwnerIsActive(st, l, t);
    ActiveCanStep(st, StackOf(st, t)[|StackOf(st, t)| - 1], registered);
  }
}
