/**
 What a Writer sends, told from the steps of the run alone: what it was opened with, and what initializeLogger found out
 about each logger of its list (see WriterProtocol).
 */
module WriterAnswers {

  import opened WriterProtocol
  import opened WriterSafety
  import opened WriterProgress

  /** The list of loggers that a Writer is opened for. */
  function Listed(open: Step): seq<LoggerId>
    requires open.Open? && open.ids != []
  {
    if open.multiLoggerSupport then open.ids else [open.ids[0]]
  }

  /** The step tells the Writer about a logger of its list. */
  predicate IsAnswer(step: Step, id: WriterId) {
    (step.Found? || step.NotFound?) && step.id == id
  }

  /** What the Writer was told, in order. */
  function Answers(steps: seq<Step>, id: WriterId): seq<Step> {
    if steps == [] then [] else (if IsAnswer(steps[0], id) then [steps[0]] else []) + Answers(steps[1..], id)
  }

  predicate SaysEnabled(answer: Step) {
    answer.Found? && answer.enabled
  }

  /** One message for each of the first `n` loggers that was found enabled, in order, always with the same text. */
  function Expected(id: WriterId, list: seq<LoggerId>, answers: seq<Step>, text: seq<Piece>, n: nat): seq<Message>
    requires n <= |list| && n <= |answers|
  {
    if n == 0 then []
    else Expected(id, list, answers, text, n - 1) +
         if SaysEnabled(answers[n - 1]) then [Message(id, list[n - 1], text)] else []
  }

  // ---------- The Writer remembers what it was told ----------

  predicate Recalls(verdict: Verdict, answer: Step) {
    match verdict
    case Enabled => SaysEnabled(answer)
    case Disabled => answer.Found? && !answer.enabled
    case Missing => answer.NotFound?
  }

  /** What the Writer holds is what it was opened with and told. */
  predicate Remembers(w: Writer, list: seq<LoggerId>, chunks: seq<string>, told: seq<Step>) {
    && w.ids == list && w.chunks == chunks
    && |told| == |w.verdicts| + (if w.phase.Report? then 1 else 0)
    && (w.phase.Report? ==> told[|w.verdicts|].NotFound?)
    && forall k :: 0 <= k < |w.verdicts| ==> Recalls(w.verdicts[k], told[k])
  }

  /** Writing and dispatching change nothing of that. */
  predicate IsAlike(w: Writer, w': Writer) {
    w'.ids == w.ids && w'.chunks == w.chunks && w'.verdicts == w.verdicts && !w.phase.Report? && !w'.phase.Report?
  }

  lemma PrepareIsAlike(st: State, id: WriterId)
    requires CanTake(st, Dispatch(id)) && st.writers[id].phase.Prepare?
    ensures id in TakePrepare(st, id).writers && IsAlike(st.writers[id], TakePrepare(st, id).writers[id])
  {}

  lemma DispatchIsAlike(st: State, id: WriterId)
    requires CanTake(st, Dispatch(id))
    ensures id in Take(st, Dispatch(id)).writers && IsAlike(st.writers[id], Take(st, Dispatch(id)).writers[id])
  {
    if st.writers[id].phase.Prepare? {
      PrepareIsAlike(st, id);
    }
  }

  lemma StepRemembers(st: State, step: Step, id: WriterId, list: seq<LoggerId>, chunks: seq<string>, told: seq<Step>)
    requires Writers(st) && CanTake(st, step) && IsStepOf(step, id) && Remembers(st.writers[id], list, chunks, told)
    ensures id in Take(st, step).writers
    ensures Remembers(Take(st, step).writers[id], list, chunks, if IsAnswer(step, id) then told + [step] else told)
  {
    match step
    case Found(_, _) =>
    case NotFound(_) =>
    case TellMissing(_) => assert id < st.nextId;
    case Offer(_) => assert IsAlike(st.writers[id], Take(st, step).writers[id]);
    case Close(_) => assert IsAlike(st.writers[id], Take(st, step).writers[id]);
    case Dispatch(_) => DispatchIsAlike(st, id);
  }

  /** One more step of any Writer, and what this one has been told by then. */
  lemma AnyStepRemembers(st: State, step: Step, id: WriterId, list: seq<LoggerId>, chunks: seq<string>, told: seq<Step>,
                         next: seq<Step>)
    requires Writers(st) && CanTake(st, step) && id in st.writers && Remembers(st.writers[id], list, chunks, told)
    requires next == if IsAnswer(step, id) then told + [step] else told
    ensures id in Take(st, step).writers && Remembers(Take(st, step).writers[id], list, chunks, next)
  {
    if IsStepOf(step, id) {
      StepRemembers(st, step, id, list, chunks, told);
    } else {
      OthersStay(st, step, id);
    }
  }

  lemma AnswersNext(steps: seq<Step>, id: WriterId, told: seq<Step>, next: seq<Step>)
    requires steps != [] && next == if IsAnswer(steps[0], id) then told + [steps[0]] else told
    ensures next + Answers(steps[1..], id) == told + Answers(steps, id)
  {}

  lemma {:induction false} RunRemembers(st: State, steps: seq<Step>, id: WriterId, list: seq<LoggerId>, chunks: seq<string>,
                                        told: seq<Step>, all: seq<Step>)
    requires Inv(st) && IsRun(st, steps) && id in st.writers && Remembers(st.writers[id], list, chunks, told)
    requires all == told + Answers(steps, id)
    ensures id in After(st, steps).writers && Remembers(After(st, steps).writers[id], list, chunks, all)
    decreases |steps|
  {
    if steps == [] {
      assert all == told;
    } else {
      var next := if IsAnswer(steps[0], id) then told + [steps[0]] else told;
      AnyStepRemembers(st, steps[0], id, list, chunks, told, next);
      AnswersNext(steps, id, told, next);
      StepKeepsInv(st, steps[0]);
      RunRemembers(Take(st, steps[0]), steps[1..], id, list, chunks, next, all);
    }
  }

  // ---------- What it sends ----------

  lemma {:induction false} DispatchesAreExpected(id: WriterId, w: Writer, list: seq<LoggerId>, chunks: seq<string>,
                                                 told: seq<Step>, text: seq<Piece>, n: nat)
    requires Remembers(w, list, chunks, told) && n <= |w.verdicts| && n <= |list| && text == Payload(id, w)
    ensures Dispatches(id, w, n) == Expected(id, list, told, text, n)
    decreases n
  {
    if n > 0 {
      DispatchesAreExpected(id, w, list, chunks, told, text, n - 1);
      assert Recalls(w.verdicts[n - 1], told[n - 1]);
    }
  }

  /** A Writer that has just come to be, and is done in the end. */
  lemma FreshWriterSent(start: State, id: WriterId, t: ThreadId, level: nat, list: seq<LoggerId>, chunks: seq<string>,
                        steps: seq<Step>)
    requires Inv(start) && id in start.writers && start.writers[id] == Opened(t, level, list, chunks) && IsRun(start, steps)
    requires id in After(start, steps).writers && After(start, steps).writers[id].phase.Done?
    ensures var told := Answers(steps, id);
            && |told| == |list| > 0
            && MessagesFrom(After(start, steps).sent, id) ==
               Expected(id, list, told, if SaysEnabled(told[0]) then Tagged(id, chunks) else [], |list|)
  {
    RunKeepsInv(start, steps);
    RunRemembers(start, steps, id, list, chunks, [], Answers(steps, id));
    RememberedIsSent(After(start, steps), id, list, chunks, Answers(steps, id));
  }

  /** A Writer that is opened in any reachable state and is done in the end was told about every logger of its list, and
      has sent one message to each that was found enabled, in order: all its text, if the first one was found enabled, and
      nothing if it was not. */
  lemma DoneWriterSentItsAnswers(st: State, open: Step, steps: seq<Step>)
    requires Reachable(st) && open.Open? && CanTake(st, open) && IsRun(Take(st, open), steps)
    requires st.nextId in After(Take(st, open), steps).writers && After(Take(st, open), steps).writers[st.nextId].phase.Done?
    ensures var id, list, told := st.nextId, Listed(open), Answers(steps, st.nextId);
            && |told| == |list| > 0
            && MessagesFrom(After(Take(st, open), steps).sent, id) ==
               Expected(id, list, told, if SaysEnabled(told[0]) then Tagged(id, open.chunks) else [], |list|)
  {
    EveryRunIsSafe(st);
    StepKeepsInv(st, open);
    FreshWriterSent(Take(st, open), st.nextId, open.t, 0, Listed(open), open.chunks, steps);
  }

  /** The report about a logger that was not found goes to the default logger, if that is enabled, and names the one that
      is missing. */
  lemma ReporterSentItsReport(st: State, id: WriterId, missing: LoggerId, start: State, steps: seq<Step>)
    requires Reachable(st) && CanTake(st, TellMissing(id)) && missing == st.writers[id].ids[st.writers[id].i]
    requires start == Take(st, TellMissing(id)) && IsRun(start, steps)
    requires st.nextId in After(start, steps).writers && After(start, steps).writers[st.nextId].phase.Done?
    ensures |Answers(steps, st.nextId)| == 1
    ensures MessagesFrom(After(start, steps).sent, st.nextId) ==
            if SaysEnabled(Answers(steps, st.nextId)[0]) then [Report(st.nextId, missing)] else []
  {
    EveryRunIsSafe(st);
    StepKeepsInv(st, TellMissing(id));
    var t, level, list, chunks := ReporterIsOpened(st, id, missing, start);
    FreshWriterSent(start, st.nextId, t, level, list, chunks, steps);
    ReportIsExpected(st.nextId, missing, list, chunks, Answers(steps, st.nextId));
  }

  lemma ReporterIsOpened(st: State, id: WriterId, missing: LoggerId, start: State)
    returns (t: ThreadId, level: nat, list: seq<LoggerId>, chunks: seq<string>)
    requires CanTake(st, TellMissing(id)) && missing == st.writers[id].ids[st.writers[id].i]
    requires start == Take(st, TellMissing(id))
    ensures list == ["default"] && chunks == ["Logger [", missing, "] is not registered yet!"]
    ensures st.nextId in start.writers && start.writers[st.nextId] == Opened(t, level, list, chunks)
  {
    t, level := st.writers[id].thread, st.writers[id].level + 1;
    list, chunks := ["default"], ["Logger [", missing, "] is not registered yet!"];
  }

  function Report(id: WriterId, missing: LoggerId): Message {
    Message(id, "default", [Piece(id, "Logger ["), Piece(id, missing), Piece(id, "] is not registered yet!")])
  }

  lemma ReportIsExpected(id: WriterId, missing: LoggerId, list: seq<LoggerId>, chunks: seq<string>, told: seq<Step>)
    requires list == ["default"] && chunks == ["Logger [", missing, "] is not registered yet!"] && |told| == 1
    ensures Expected(id, list, told, if SaysEnabled(told[0]) then Tagged(id, chunks) else [], 1) ==
            if SaysEnabled(told[0]) then [Report(id, missing)] else []
  {
    TaggedThree(id, chunks[0], chunks[1], chunks[2]);
    assert Expected(id, list, told, Tagged(id, chunks), 0) == [] && Expected(id, list, told, [], 0) == [];
  }

  lemma TaggedThree(id: WriterId, a: string, b: string, c: string)
    ensures Tagged(id, [a, b, c]) == [Piece(id, a), Piece(id, b), Piece(id, c)]
  {
    assert [a, b, c][..2] == [a, b] && [a, b][..1] == [a] && [a][..0] == [];
    assert Tagged(id, [a]) == [Piece(id, a)];
  }

  lemma RememberedIsSent(st: State, id: WriterId, list: seq<LoggerId>, chunks: seq<string>, told: seq<Step>)
    requires Sent(st) && id in st.writers && st.writers[id].phase.Done? && Remembers(st.writers[id], list, chunks, told)
    ensures |told| == |list| > 0
    ensures MessagesFrom(st.sent, id) ==
            Expected(id, list, told, if SaysEnabled(told[0]) then Tagged(id, chunks) else [], |list|)
  {
    var w := st.writers[id];
    assert SentOk(st.sent, id, w);
    assert Recalls(w.verdicts[0], told[0]);
    DispatchesAreExpected(id, w, list, chunks, told, Payload(id, w), |list|);
  }
}
