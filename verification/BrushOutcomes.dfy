/**
 What a brushing run decides when nothing fails: which gate evaluations it makes, what it does with each
 verdict, and how it ends.
 */
module BrushOutcomes {
  import opened Wrappers
  import opened Brush
  import opened BrushTheorems

  /** Every operation returns. */
  ghost predicate Calm(e: Env) {
    forall n :: e.script.fate(n) == Returns
  }

  /** The deadline does not pass, and control gives every trial an id. */
  ghost predicate InTime(e: Env, deadline: int) {
    forall n :: e.script.mono(n) < deadline && !e.script.trial(n).id.Absent?
  }

  lemma CalmJournal(e: Env, st: State)
    requires Calm(e)
    ensures Journal(e, st) == Go(st.(next := st.next + if e.journaled then 1 else 0))
  {
    assert e.script.fate(st.next) == Returns;
  }

  lemma CalmSave(e: Env, st: State)
    requires Calm(e)
    ensures var f := Save(e, st);
            && f.Go? && f.state.history == st.history && f.state.result == st.result && f.state.attempt == st.attempt
            && f.state.trial == st.trial && f.state.verdict == st.verdict
            && f.state.next == st.next + (if e.journaled then 1 else 0)
  {
    hide Journal;
    CalmJournal(e, st);
  }

  lemma CalmDone(e: Env, st: State)
    requires Calm(e)
    ensures var f := Done(e, st);
            f.Ret? && f.state.history == st.history && f.state.result == st.result.(finished := true)
  {
    hide Save;
    CalmSave(e, st.(result := st.result.(finished := true)));
  }

  lemma CalmOpen(e: Env, st: State, deadline: int)
    requires Calm(e) && InTime(e, deadline)
    ensures var f, trial := Open(e, st, deadline), e.script.trial(st.next);
            && f.Go? && f.state.trial == Some(trial) && f.state.result.outcome == st.result.outcome
            && f.state.next == st.next + (if e.journaled then 3 else 1)
            && f.state.history == Then(st.history, PrepareCall(st.next, st.attempt.strategy, Returns, trial))
  {
    hide Journal, Save;
    assert e.script.fate(st.next) == Returns && e.script.mono(st.next) < deadline;
    var b := Prepare(e, st).state;
    CalmJournal(e, b);
    CalmSave(e, Journal(e, b).state);
  }

  /** The verdict on the gate evaluation that is operation n, judged right after its event. */
  function VerdictAt(e: Env, n: nat): Verdict {
    ObservationState(e.script.gate(n), e.request.scenarioId, e.script.clock(n + if e.journaled then 2 else 1))
  }

  function GateAt(e: Env, n: nat): Entry {
    GateVerdict(VerdictAt(e, n), Some(e.script.gate(n)), e.script.clock(n + if e.journaled then 2 else 1))
  }

  lemma CalmObserve(e: Env, st: State)
    requires Calm(e)
    ensures var f := Observe(e, st);
            && f.Go? && f.state.next == st.next + (if e.journaled then 2 else 1)
            && f.state.history == Then(st.history, GateAt(e, st.next)) && f.state.verdict == VerdictAt(e, st.next)
            && f.state.trial == st.trial && f.state.result == st.result
  {
    hide Journal, ObservationState;
    assert e.script.fate(st.next) == Returns;
    CalmJournal(e, EvaluateGate(e, st).state);
  }

  /** One gate evaluation, and a second one exactly if the first left the service unclear; the last one decides. */
  lemma CalmEvaluate(e: Env, st: State, deadline: int)
    requires Calm(e) && InTime(e, deadline)
    ensures var f, m := Evaluate(e, st, deadline), st.next + (if e.journaled then 2 else 1);
            && f.Go? && f.state.trial == st.trial && f.state.result == st.result
            && (if VerdictAt(e, st.next) != Unclear
                then f.state.history == Then(st.history, GateAt(e, st.next)) && f.state.verdict == VerdictAt(e, st.next)
                else f.state.history == Then(Then(st.history, GateAt(e, st.next)), GateAt(e, m))
                     && f.state.verdict == VerdictAt(e, m))
  {
    hide Observe, Journal, VerdictAt, GateAt;
    assert e.script.mono(st.next) < deadline;
    CalmObserve(e, st);
    var b := Observe(e, st).state;
    var retrying := b.(attempt := b.attempt.(retried := true));
    assert e.script.mono(retrying.next) < deadline;
    CalmObserve(e, retrying);
    var c := if b.verdict == Unclear then Observe(e, retrying).state else b;
    CalmSample(e, c.(attempt := c.attempt.(observation := c.reading)));
  }

  lemma CalmSample(e: Env, st: State)
    requires Calm(e)
    ensures var f := Sample(e, st);
            && f.Go? && f.state.trial == st.trial && f.state.result == st.result && f.state.history == st.history
            && f.state.verdict == st.verdict && f.state.reading == st.reading
            && f.state.next == st.next + (if e.journaled then 2 else 1)
  {
    hide Journal;
    assert e.script.fate(st.next) == Returns;
    CalmJournal(e, Tick(st).(samples := st.samples + [e.script.perf(st.next)]));
  }

  lemma CalmUndo(e: Env, st: State)
    requires Calm(e) && st.trial.Some? && !st.trial.value.id.Absent?
    ensures var f := Undo(e, st);
            && f.Go? && f.state.result == st.result && f.state.verdict == st.verdict
            && f.state.history == Then(st.history, RollbackCall(st.trial.value.id.text, Returns))
  {
    hide Journal;
    assert e.script.fate(st.next) == Returns;
    CalmJournal(e, Rollback(e, st, st.trial.value.id.text).state);
  }

  lemma CalmAccept(e: Env, st: State, number: nat)
    requires Calm(e) && st.trial.Some? && !st.trial.value.id.Absent?
    ensures var f := Accept(e, st, number);
            && f.Ret? && f.state.result.outcome == Succeeded
            && f.state.history == Then(st.history, CommitCall(st.trial.value.id.text, Returns))
  {
    hide Journal, Done;
    assert e.script.fate(st.next) == Returns;
    var a := Commit(e, st, st.trial.value.id.text).state;
    CalmJournal(e, a);
    var b := Journal(e, a).state;
    var c := Listed(b.(attempt := b.attempt.(outcome := Succeeded, committed := true)));
    CalmDone(e, c.(result := c.result.(outcome := Succeeded, used := Some(number))));
  }

  lemma CalmReject(e: Env, st: State, number: nat)
    requires Calm(e) && st.trial.Some? && !st.trial.value.id.Absent?
    ensures var f := Reject(e, st, number);
            && f.state.history == Then(st.history, RollbackCall(st.trial.value.id.text, Returns))
            && (if st.verdict == Unclear then f.Ret? && f.state.result.outcome == Unsettled
                else f.Go? && f.state.result.outcome == st.result.outcome)
  {
    hide Undo, Done;
    CalmUndo(e, st);
    var a := Undo(e, st).state;
    var b := Listed(a.(attempt := a.attempt.(outcome := Unsettled, layer := Some(ServiceProbe))));
    CalmDone(e, b.(result := b.result.(outcome := Unsettled, layer := Some(ServiceProbe), used := Some(number))));
  }

  /** How an attempt ended: with an unchanged address, or with its last verdict. */
  datatype Ending = NotChanged | Judged(verdict: Verdict)

  /** Read off the script: the trial prepared by operation n, and the one or two gate evaluations after it. */
  function EndingAt(e: Env, n: nat): Ending {
    var first := n + (if e.journaled then 3 else 1);
    if !e.script.trial(n).changed then NotChanged
    else if VerdictAt(e, first) != Unclear then Judged(VerdictAt(e, first))
    else Judged(VerdictAt(e, first + if e.journaled then 2 else 1))
  }

  /** What the attempt does with its ending. */
  predicate Decides(e: Env, st: State, f: Flow, ending: Ending, id: string) {
    && f.state.history.Then?
    && Prepares(f.state.history) == Prepares(st.history) + 1
    && LastVerdict(f.state.history) == (match ending case NotChanged => None case Judged(v) => Some(v))
    && match ending
       case NotChanged => Undoes(f, id) && f.Go? && f.state.result.outcome == st.result.outcome
       case Judged(v) =>
         match v
         case Up => f.state.history.entry == CommitCall(id, Returns) && f.Ret? && f.state.result.outcome == Succeeded
         case Unclear => Undoes(f, id) && f.Ret? && f.state.result.outcome == Unsettled
         case Down => Undoes(f, id) && f.Go? && f.state.result.outcome == st.result.outcome
  }

  predicate Undoes(f: Flow, id: string) {
    f.state.history.Then? && f.state.history.entry == RollbackCall(id, Returns)
  }

  /**
   One attempt in which nothing fails. A candidate whose address changed and whose last gate verdict is
   available is committed, and the run succeeds. Every other one is rolled back: an unclear one ends the
   run, a refused one or one whose address did not change leaves it to the next attempt.
   */
  lemma CalmAttempt(e: Env, st: State, number: nat, deadline: int)
    requires Calm(e) && InTime(e, deadline)
    ensures Decides(e, st, AttemptOnce(e, st, number, deadline), EndingAt(e, st.next), e.script.trial(st.next).id.text)
  {
    hide Open, Evaluate, Unchanged, Accept, Reject, Handle, VerdictAt, GateAt;
    var begun, trial := Begun(e, st, number), e.script.trial(st.next);
    assert !trial.id.Absent?;
    CalmOpen(e, begun, deadline);
    var a := Open(e, begun, deadline).state;
    assert Prepares(a.history) == Prepares(st.history) + 1 && LastVerdict(a.history) == None;
    if !trial.changed {
      CalmUnchanged(e, a);
    } else {
      CalmEvaluate(e, a, deadline);
      GatesCount(e, a.history, a.next);
      var b := Evaluate(e, a, deadline).state;
      if b.verdict == Brush.Up {
        CalmAccept(e, b, number);
      } else {
        CalmReject(e, b, number);
      }
    }
  }

  lemma GatesCount(e: Env, h: History, n: nat)
    ensures var k := Then(h, GateAt(e, n));
            Prepares(k) == Prepares(h) && LastVerdict(k) == Some(VerdictAt(e, n))
    ensures forall m :: var k := Then(Then(h, GateAt(e, n)), GateAt(e, m));
                        Prepares(k) == Prepares(h) && LastVerdict(k) == Some(VerdictAt(e, m))
  {
    hide VerdictAt;
  }

  lemma CalmUnchanged(e: Env, st: State)
    requires Calm(e) && st.trial.Some? && !st.trial.value.id.Absent?
    ensures var f := Unchanged(e, st);
            && f.Go? && f.state.result.outcome == st.result.outcome
            && f.state.history == Then(st.history, RollbackCall(st.trial.value.id.text, Returns))
  {
    hide Undo;
    CalmUndo(e, st);
  }

  /** The outcome that goes with the last verdict of the attempts. */
  function OutcomeOf(last: Option<Verdict>): Outcome {
    match last
    case None => Failed
    case Some(v) => match v case Up => Succeeded case Unclear => Unsettled case Down => Failed
  }

  lemma {:induction false} CalmAttempts(e: Env, st: State, number: nat, deadline: int)
    requires Calm(e) && InTime(e, deadline) && number <= e.request.attempts + 1
    requires st.result.outcome == Failed && OutcomeOf(LastVerdict(st.history)) == Failed
    ensures var f := Attempts(e, st, number, deadline);
            && f.Ret? && f.state.result.outcome == OutcomeOf(LastVerdict(f.state.history))
            && (f.state.result.outcome == Failed ==>
                  Prepares(f.state.history) == Prepares(st.history) + (e.request.attempts + 1 - number))
    decreases e.request.attempts + 1 - number
  {
    hide AttemptOnce, Done, EndingAt;
    if number > e.request.attempts {
      CalmDone(e, st.(result := st.result.(used := Some(|st.result.attempts|),
          layer := LastLayer(st.result.attempts))));
    } else {
      CalmAttempt(e, st, number, deadline);
      var f := AttemptOnce(e, st, number, deadline);
      if f.Go? {
        CalmAttempts(e, f.state, number + 1, deadline);
      }
    }
  }

  lemma CalmBaseline(e: Env, st: State)
    requires Calm(e)
    ensures var f := Baseline(e, st);
            && f.Go? && f.state.history == st.history && f.state.result.outcome == st.result.outcome
            && f.state.reading == Some(e.script.gate(st.next))
            && f.state.next == st.next + (if e.journaled then 4 else 2)
  {
    hide Journal, Sample;
    assert e.script.fate(st.next) == Returns;
    var a := EvaluateGate(e, st).state;
    var b := a.(result := a.result.(baseline := a.reading));
    CalmJournal(e, b);
    CalmSample(e, Journal(e, b).state);
  }

  /** What the baseline reading says when the run looks at it, four operations later with a journal and two without. */
  function BaselineVerdict(e: Env, next: nat): Verdict {
    var first := next + if e.journaled then 1 else 0;
    ObservationState(e.script.gate(first), e.request.scenarioId, e.script.clock(first + if e.journaled then 4 else 2))
  }

  lemma CalmBegin(e: Env, next: nat, rows: seq<JournalRow>)
    requires Calm(e) && (e.journaled ==> LaneAvailable(rows, e.script.clock(next)))
    ensures var f := Begin(e, Initial(next, rows), e.script.clock(next));
            && f.Go? && f.state.history == Start && f.state.result.outcome == Failed
            && f.state.next == next + (if e.journaled then 1 else 0)
  {
    hide Journal, LaneAvailable;
    CalmJournal(e, Initial(next, rows));
  }

  /**
   A whole run in which nothing fails, on a free lane and within its deadline. It returns, and its outcome
   is that of the baseline or of its last attempt: satisfied already without a forced change, succeeded
   exactly with an available candidate, unsettled exactly with an unclear one, and failed exactly when all
   attempts were used up on refused or unchanged addresses.
   */
  lemma CalmRunSettles(e: Env, next: nat, rows: seq<JournalRow>)
    requires Calm(e) && Admissible(e.request) && (e.journaled ==> LaneAvailable(rows, e.script.clock(next)))
    requires InTime(e, e.script.mono(next + if e.journaled then 1 else 0) + e.request.deadlineSeconds)
    ensures var f, v := Run(e, Initial(next, rows)), BaselineVerdict(e, next);
            && f.Ret?
            && f.state.result.outcome == (if v == Brush.Up && !e.request.forceChange then AlreadySatisfied
                                          else if v == Unclear then Unsettled
                                          else OutcomeOf(LastVerdict(f.state.history)))
            && (f.state.result.outcome == Failed ==> Prepares(f.state.history) == e.request.attempts)
            && ((v == Brush.Up && !e.request.forceChange) || v == Unclear ==> f.state.history == Start)
  {
    hide Begin, Baseline, Attempts, Done, ObservationState, LaneAvailable;
    CalmBegin(e, next, rows);
    var a := Begin(e, Initial(next, rows), e.script.clock(next)).state;
    CalmBaseline(e, a);
    var b := Baseline(e, a).state;
    CalmDone(e, b.(result := b.result.(outcome := AlreadySatisfied)));
    CalmDone(e, b.(result := b.result.(outcome := Unsettled, layer := Some(ServiceProbe))));
    CalmAttempts(e, b, 1, e.script.mono(a.next) + e.request.deadlineSeconds);
  }

  /** Which requests are carried out at all: the others raise before anything is read, recorded or changed. */
  lemma AcceptsExactly(e: Env, next: nat, rows: seq<JournalRow>)
    requires Calm(e) && (e.journaled ==> LaneAvailable(rows, e.script.clock(next)))
    requires InTime(e, e.script.mono(next + if e.journaled then 1 else 0) + e.request.deadlineSeconds)
    ensures var f, q := Run(e, Initial(next, rows)), e.request;
            && (f.Ret? <==>
                  && q.brushable && 1 <= q.attempts <= 3 && q.strategy.Some? && 30 <= q.leaseSeconds <= 1800
                  && 60 <= q.deadlineSeconds <= 900 && q.cooldownSeconds == 1800)
            && (!f.Ret? ==> f == Exn(Initial(next, rows)))
  {
    hide Begin, Baseline, Brushed, LaneAvailable;
    if Admissible(e.request) {
      CalmRunSettles(e, next, rows);
    }
  }
}
