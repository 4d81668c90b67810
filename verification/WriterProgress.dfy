/**
 Why Writers end (see WriterProtocol): how many steps each has left, and how many all of them together.
 */
module WriterProgress {

  import opened Options
  import opened WriterProtocol
  import opened WriterSafety

  // ---------- One Writer ----------

  /** How many steps of its own a Writer has left at most. */
  function StepsLeft(w: Writer): nat
    requires w.i < |w.ids|
  {
    var later := 8 * (|w.ids| - 1 - w.i);
    var text := if w.i == 0 then |w.chunks| else 0;
    match w.phase
    case Initialize => later + 8 + text
    case Report => later + 7 + text
    case Write(k) => later + 6 + if k < |w.chunks| then |w.chunks| - k else 0
    case Prepare => later + 5
    case Emit => later + 4
    case Deliver => later + 3
    case Clear => later + 2
    case Release => later + 1
    case Done => 0
  }

  /** The step is one of the Writer. */
  predicate IsStepOf(step: Step, id: WriterId) {
    !step.Open? && step.id == id
  }

  function StepsOf(steps: seq<Step>, id: WriterId): nat {
    if steps == [] then 0 else (if IsStepOf(steps[0], id) then 1 else 0) + StepsOf(steps[1..], id)
  }

  /** No step touches another Writer. */
  lemma OthersStay(st: State, step: Step, id: WriterId)
    requires Writers(st) && CanTake(st, step) && id in st.writers && !IsStepOf(step, id)
    ensures id in Take(st, step).writers && Take(st, step).writers[id] == st.writers[id]
  {
    assert id < st.nextId;
  }

  lemma AdvancedComesCloser(w: Writer)
    requires w.i < |w.ids| && (w.phase.Prepare? || w.phase.Release?)
    ensures Advanced(w).i < |Advanced(w).ids| && StepsLeft(Advanced(w)) < StepsLeft(w)
  {}

  lemma PrepareComesCloser(st: State, id: WriterId)
    requires CanTake(st, Dispatch(id)) && st.writers[id].phase.Prepare?
    ensures var st' := TakePrepare(st, id);
            id in st'.writers && st'.writers[id].i < |st'.writers[id].ids| && StepsLeft(st'.writers[id]) < StepsLeft(st.writers[id])
  {
    AdvancedComesCloser(st.writers[id]);
  }

  lemma DispatchComesCloser(st: State, id: WriterId)
    requires CanTake(st, Dispatch(id))
    ensures var st' := Take(st, Dispatch(id));
            id in st'.writers && st'.writers[id].i < |st'.writers[id].ids| && StepsLeft(st'.writers[id]) < StepsLeft(st.writers[id])
  {
    var w := st.writers[id];
    if w.phase.Prepare? {
      PrepareComesCloser(st, id);
    } else if w.phase.Release? {
      AdvancedComesCloser(w.(proceed := false));
    }
  }

  /** Each step of a Writer brings it closer to its end. */
  lemma OwnStepComesCloser(st: State, step: Step, id: WriterId)
    requires Writers(st) && CanTake(st, step) && id in st.writers && IsStepOf(step, id)
    ensures var st' := Take(st, step);
            id in st'.writers && st'.writers[id].i < |st'.writers[id].ids| && StepsLeft(st'.writers[id]) < StepsLeft(st.writers[id])
  {
    assert id < st.nextId && WriterOk(id, st.writers[id]);
    if step.Dispatch? {
      DispatchComesCloser(st, id);
    }
  }

  /** In every run a Writer takes no more steps of its own than it has left; when none is left it is done. */
  lemma {:induction false} EveryWriterEnds(st: State, steps: seq<Step>, id: WriterId)
    requires Inv(st) && IsRun(st, steps) && id in st.writers
    ensures id in After(st, steps).writers
    ensures st.writers[id].i < |st.writers[id].ids| && After(st, steps).writers[id].i < |After(st, steps).writers[id].ids|
    ensures StepsOf(steps, id) + StepsLeft(After(st, steps).writers[id]) <= StepsLeft(st.writers[id])
    ensures StepsLeft(After(st, steps).writers[id]) == 0 <==> After(st, steps).writers[id].phase.Done?
    decreases |steps|
  {
    assert WriterOk(id, st.writers[id]);
    if steps != [] {
      if IsStepOf(steps[0], id) {
        OwnStepComesCloser(st, steps[0], id);
      } else {
        OthersStay(st, steps[0], id);
      }
      StepKeepsInv(st, steps[0]);
      EveryWriterEnds(Take(st, steps[0]), steps[1..], id);
    }
  }

  /** A Writer just opened takes at most eight steps for each logger of its list and one for each piece of text. */
  lemma OpenedWriterEnds(st: State, open: Step, steps: seq<Step>)
    requires Inv(st) && open.Open? && CanTake(st, open) && IsRun(Take(st, open), steps)
    ensures StepsOf(steps, st.nextId) <= 8 * (if open.multiLoggerSupport then |open.ids| else 1) + |open.chunks|
  {
    StepKeepsInv(st, open);
    EveryWriterEnds(Take(st, open), steps, st.nextId);
  }

  // ---------- All Writers ----------

  /** How many loggers of the list, from `k` on, are not registered. */
  function Missing(ids: seq<LoggerId>, k: nat, registered: LoggerId -> bool): nat
    requires k <= |ids|
    decreases |ids| - k
  {
    if k == |ids| then 0 else (if registered(ids[k]) then 0 else 1) + Missing(ids, k + 1, registered)
  }

  /** The Writers that a Writer may still open in order to report. */
  function ReportsLeft(w: Writer, registered: LoggerId -> bool): nat
    requires w.i < |w.ids|
  {
    match w.phase
    case Initialize => Missing(w.ids, w.i, registered)
    case Report => 1 + Missing(w.ids, w.i + 1, registered)
    case _ => Missing(w.ids, w.i + 1, registered)
  }

  /** A report takes one logger and three pieces of text. */
  const REPORT_STEPS := 11

  function Weight(w: Writer, registered: LoggerId -> bool): nat
    requires w.i < |w.ids|
  {
    StepsLeft(w) + REPORT_STEPS * ReportsLeft(w, registered)
  }

  /** The steps that the Writers with numbers below `n`, and those that they open, have left. */
  function TotalWeight(writers: map<WriterId, Writer>, n: nat, registered: LoggerId -> bool): nat
    requires forall id :: id in writers ==> writers[id].i < |writers[id].ids|
  {
    if n == 0 then 0
    else TotalWeight(writers, n - 1, registered) + if n - 1 in writers then Weight(writers[n - 1], registered) else 0
  }

  lemma {:induction false} WeightChanges(writers: map<WriterId, Writer>, id: WriterId, w: Writer, n: nat,
                                         registered: LoggerId -> bool)
    requires forall k :: k in writers ==> writers[k].i < |writers[k].ids|
    requires id in writers && w.i < |w.ids|
    ensures TotalWeight(writers[id := w], n, registered) ==
            TotalWeight(writers, n, registered) + if id < n then Weight(w, registered) - Weight(writers[id], registered) else 0
    decreases n
  {
    if n > 0 {
      WeightChanges(writers, id, w, n - 1, registered);
    }
  }

  lemma {:induction false} WeightIgnoresLater(writers: map<WriterId, Writer>, id: WriterId, w: Writer, n: nat,
                                              registered: LoggerId -> bool)
    requires forall k :: k in writers ==> writers[k].i < |writers[k].ids|
    requires n <= id && w.i < |w.ids|
    ensures TotalWeight(writers[id := w], n, registered) == TotalWeight(writers, n, registered)
    decreases n
  {
    if n > 0 {
      WeightIgnoresLater(writers, id, w, n - 1, registered);
    }
  }

  function Left(st: State, registered: LoggerId -> bool): nat
    requires Writers(st)
  {
    TotalWeight(st.writers, st.nextId, registered)
  }

  /** Every step but a report changes one Writer and opens none. */
  lemma StepTouchesOne(st: State, step: Step)
    requires CanTake(st, step) && !step.Open? && !step.TellMissing?
    ensures var st' := Take(st, step);
            step.id in st'.writers && st'.nextId == st.nextId && st'.writers == st.writers[step.id := st'.writers[step.id]]
  {}

  /** How a step other than a report moves its Writer along the list. */
  predicate MovesAlong(w: Writer, w': Writer, notFound: bool) {
    && w'.ids == w.ids
    && if w.phase.Initialize? then w'.i == w.i && !w'.phase.Initialize? && (w'.phase.Report? ==> notFound)
       else !w.phase.Report? && if w'.i == w.i then !w'.phase.Initialize? && !w'.phase.Report?
                                else w'.i == w.i + 1 < |w.ids| && w'.phase.Initialize?
  }

  lemma AdvancedMovesAlong(w: Writer)
    requires w.i < |w.ids| && (w.phase.Prepare? || w.phase.Release?)
    ensures MovesAlong(w, Advanced(w), false) && MovesAlong(w, Advanced(w.(proceed := false)), false)
  {}

  lemma PrepareMovesAlong(st: State, id: WriterId)
    requires CanTake(st, Dispatch(id)) && st.writers[id].phase.Prepare? && id in TakePrepare(st, id).writers
    ensures MovesAlong(st.writers[id], TakePrepare(st, id).writers[id], false)
  {
    AdvancedMovesAlong(st.writers[id]);
  }

  lemma DispatchMovesAlong(st: State, id: WriterId)
    requires CanTake(st, Dispatch(id)) && id in Take(st, Dispatch(id)).writers
    ensures MovesAlong(st.writers[id], Take(st, Dispatch(id)).writers[id], false)
  {
    if st.writers[id].phase.Prepare? {
      PrepareMovesAlong(st, id);
    } else if st.writers[id].phase.Release? {
      AdvancedMovesAlong(st.writers[id]);
    }
  }

  lemma StepMovesAlong(st: State, step: Step)
    requires CanTake(st, step) && !step.Open? && !step.TellMissing? && step.id in Take(st, step).writers
    ensures MovesAlong(st.writers[step.id], Take(st, step).writers[step.id], step.NotFound?)
  {
    if step.Dispatch? {
      DispatchMovesAlong(st, step.id);
    }
  }

  lemma ReportsDoNotGrow(w: Writer, w': Writer, notFound: bool, registered: LoggerId -> bool)
    requires w.i < |w.ids| && w'.i < |w'.ids| && MovesAlong(w, w', notFound)
    requires notFound ==> !registered(w.ids[w.i])
    ensures ReportsLeft(w', registered) <= ReportsLeft(w, registered)
  {}

  lemma TellMissingUsesUp(st: State, id: WriterId, registered: LoggerId -> bool, w': Writer, reporter: Writer)
    requires Writers(st) && CanTake(st, TellMissing(id)) && registered(DEFAULT_LOGGER)
    requires w' == st.writers[id].(logger := None, proceed := false, phase := AfterInitialize(st.writers[id]),
                                   verdicts := st.writers[id].verdicts + [Verdict.Missing])
    requires reporter == Reporter(st.writers[id].thread, st.writers[id].level + 1, st.writers[id].ids[st.writers[id].i])
    ensures Weight(w', registered) + Weight(reporter, registered) < Weight(st.writers[id], registered)
  {
    assert Missing(reporter.ids, 0, registered) == Missing(reporter.ids, 1, registered) == 0;
  }

  lemma WeightAfterReport(writers: map<WriterId, Writer>, id: WriterId, w: Writer, n: nat, reporter: Writer,
                          registered: LoggerId -> bool)
    requires forall k :: k in writers ==> writers[k].i < |writers[k].ids|
    requires id in writers && id < n && w.i < |w.ids| && reporter.i < |reporter.ids|
    ensures TotalWeight(writers[id := w][n := reporter], n + 1, registered) ==
            TotalWeight(writers, n, registered) - Weight(writers[id], registered) + Weight(w, registered)
            + Weight(reporter, registered)
  {
    WeightChanges(writers, id, w, n, registered);
    WeightIgnoresLater(writers[id := w], n, reporter, n, registered);
  }

  lemma ReportUsesUp(st: State, id: WriterId, registered: LoggerId -> bool, st': State)
    requires Writers(st) && CanTake(st, TellMissing(id)) && registered(DEFAULT_LOGGER)
    requires st' == TakeTellMissing(st, id) && Writers(st')
    ensures Left(st', registered) < Left(st, registered)
  {
    var w := st.writers[id];
    var w' := w.(logger := None, proceed := false, phase := AfterInitialize(w), verdicts := w.verdicts + [Verdict.Missing]);
    var reporter := Reporter(w.thread, w.level + 1, w.ids[w.i]);
    assert st'.writers == st.writers[id := w'][st.nextId := reporter] && st'.nextId == st.nextId + 1 && w'.i < |w'.ids|;
    TellMissingUsesUp(st, id, registered, w', reporter);
    WeightAfterReport(st.writers, id, w', st.nextId, reporter, registered);
  }

  lemma OwnStepUsesUp(st: State, step: Step, registered: LoggerId -> bool, st': State)
    requires CanTake(st, step) && !step.Open? && !step.TellMissing? && Fits(st, step, registered)
    requires st' == Take(st, step) && Writers(st) && Writers(st')
    ensures Left(st', registered) < Left(st, registered)
  {
    var id := step.id;
    StepTouchesOne(st, step);
    OwnStepComesCloser(st, step, id);
    StepMovesAlong(st, step);
    ReportsDoNotGrow(st.writers[id], st'.writers[id], step.NotFound?, registered);
    WeightChanges(st.writers, id, st'.writers[id], st.nextId, registered);
  }

  /** Each step uses up some of what is left, reports included, as long as the default logger is registered. */
  lemma StepUsesUp(st: State, step: Step, registered: LoggerId -> bool)
    requires CanTake(st, step) && !step.Open? && Fits(st, step, registered) && registered(DEFAULT_LOGGER)
    requires Writers(st) && Writers(Take(st, step))
    ensures Left(Take(st, step), registered) < Left(st, registered)
  {
    if step.TellMissing? {
      ReportUsesUp(st, step.id, registered, Take(st, step));
    } else {
      OwnStepUsesUp(st, step, registered, Take(st, step));
    }
  }

  /** A run in which no Writer is opened from outside, and loggers are found exactly where they are registered. */
  ghost predicate IsClosedRun(st: State, steps: seq<Step>, registered: LoggerId -> bool)
    decreases |steps|
  {
    steps == [] ||
    (CanTake(st, steps[0]) && !steps[0].Open? && Fits(st, steps[0], registered)
     && IsClosedRun(Take(st, steps[0]), steps[1..], registered))
  }

  lemma {:induction false} ClosedRunIsRun(st: State, steps: seq<Step>, registered: LoggerId -> bool)
    requires IsClosedRun(st, steps, registered)
    ensures IsRun(st, steps)
    decreases |steps|
  {
    if steps != [] {
      ClosedRunIsRun(Take(st, steps[0]), steps[1..], registered);
    }
  }

  /** With the default logger registered all Writers together, and those that they open in order to report, take no more
      steps than are left. */
  lemma {:induction false} EveryClosedRunEnds(st: State, steps: seq<Step>, registered: LoggerId -> bool)
    requires Inv(st) && registered(DEFAULT_LOGGER) && IsClosedRun(st, steps, registered)
    ensures IsRun(st, steps) && Inv(After(st, steps))
    ensures |steps| + Left(After(st, steps), registered) <= Left(st, registered)
    decreases |steps|
  {
    ClosedRunIsRun(st, steps, registered);
    if steps != [] {
      StepKeepsInv(st, steps[0]);
      StepUsesUp(st, steps[0], registered);
      EveryClosedRunEnds(Take(st, steps[0]), steps[1..], registered);
    }
  }

  /** And where no step is left to take, no Writer is open. So every such run comes to rest with all locks free. */
  lemma RestMeansQuiet(st: State, registered: LoggerId -> bool, t: ThreadId, l: LoggerId)
    requires Reachable(st) && !SomeStep(st, registered)
    ensures StackOf(st, t) == [] && st.storage.Free? && LockOf(st, l).Free? && StreamOf(st, l) == []
  {
    forall t ensures StackOf(st, t) == [] {
      if StackOf(st, t) != [] { SomeWriterCanStep(st, t, registered); }
    }
    QuietMeansEmpty(st, l);
  }
}
