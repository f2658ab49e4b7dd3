/** Safety of whole brushing runs, and of sequences of them, under every script of failures and crashes. */
module BrushTheorems {
  import opened Wrappers
  import opened Brush
  import Provenance

  // ----- The control protocol as an automaton over the history.

  /**
   Where a run stands with its trials. `Over`: a prepare failed, so it is unknown whether there is a
   trial. A rollback is final when it undid a commit.
   */
  datatype Phase =
    | Idle
    | Trialing(trial: Trial, last: Option<Verdict>)
    | RolledBack(id: string, final: bool)
    | Committed(id: string, broken: bool)
    | Over
    | Illegal

  predicate Names(trial: Trial, id: string) {
    !trial.id.Absent? && trial.id.text == id
  }

  predicate Ready(p: Phase) {
    p.Idle? || (p.RolledBack? && !p.final)
  }

  function Undone(p: Phase, id: string): Phase {
    RolledBack(id, p.Committed? || (p.RolledBack? && p.final))
  }

  /**
   A trial is prepared only when no other is open; it is committed only if its address changed and the
   last gate verdict on it was available; a committed trial is rolled back only after a journal failure.
   */
  function Step(p: Phase, entry: Entry): Phase {
    match entry
    case PrepareCall(_, _, fate, trial) =>
      if !Ready(p) then Illegal
      else if fate == Returns then Trialing(trial, None) else Over
    case GateVerdict(v, _, _) => if p.Trialing? then p.(last := Some(v)) else Illegal
    case CommitCall(id, fate) =>
      if p.Trialing? && p.trial.changed && p.last == Some(Up) && Names(p.trial, id)
      then (if fate == Returns then Committed(id, false) else p)
      else Illegal
    case RollbackCall(id, fate) =>
      if (p.Trialing? && Names(p.trial, id)) || (p.RolledBack? && p.id == id) || (p.Committed? && p.broken
          && p.id == id)
      then (if fate == Returns then Undone(p, id) else p)
      else Illegal
    case JournalFailed => if p.Committed? then p.(broken := true) else p
  }

  function Scan(h: History): Phase {
    match h
    case Start => Idle
    case Then(past, entry) => Step(Scan(past), entry)
  }

  function Prepares(h: History): nat {
    match h
    case Start => 0
    case Then(past, entry) => Prepares(past) + if entry.PrepareCall? then 1 else 0
  }

  function Commits(h: History): nat {
    match h
    case Start => 0
    case Then(past, entry) => Commits(past) + if entry.CommitCall? then 1 else 0
  }

  function Rollbacks(h: History): nat {
    match h
    case Start => 0
    case Then(past, entry) => Rollbacks(past) + if entry.RollbackCall? then 1 else 0
  }

  /** At most this many more calls of each kind. */
  predicate Within(h: History, k: History, prepares: nat, commits: nat, rollbacks: nat) {
    && Prepares(h) <= Prepares(k) <= Prepares(h) + prepares && Commits(h) <= Commits(k) <= Commits(h) + commits
    && Rollbacks(h) <= Rollbacks(k) <= Rollbacks(h) + rollbacks
  }

  predicate CommitReturned(h: History) {
    match h
    case Start => false
    case Then(past, entry) => CommitReturned(past) || (entry.CommitCall? && entry.fate == Returns)
  }

  /** Every gate verdict on record is what the reading says at its time. */
  predicate GatesHonest(scenario: string, h: History) {
    match h
    case Start => true
    case Then(past, GateVerdict(v, reading, now)) =>
      GatesHonest(scenario, past)
      && v == (if reading.None? then Unclear else ObservationState(reading.value, scenario, now))
    case Then(past, _) => GatesHonest(scenario, past)
  }

  /** A run claims success only for a commit that returned, and its gate verdicts are honest. */
  predicate Earned(e: Env, st: State) {
    && (st.result.outcome == Succeeded ==> CommitReturned(st.history))
    && GatesHonest(e.request.scenarioId, st.history)
  }

  predicate InTrial(st: State) {
    st.trial.Some? && Scan(st.history).Trialing? && Scan(st.history).trial == st.trial.value
  }

  /** What the exception handler may find. */
  predicate Catchable(st: State) {
    var p := Scan(st.history);
    match st.trial
    case None => Ready(p) || p.Over?
    case Some(trial) =>
      || (p.Trialing? && p.trial == trial)
      || ((p.RolledBack? || (p.Committed? && p.broken)) && Names(trial, p.id))
  }

  // ----- What each piece of the program does to the history.

  /** An event or a save leaves the history alone, or adds a journal failure and raises. */
  lemma JournalShape(e: Env, st: State)
    ensures var f := Journal(e, st);
            && !f.Ret? && f.state.trial == st.trial && f.state.verdict == st.verdict && f.state.result == st.result
            && f.state.attempt == st.attempt
            && f.state.history == if f.Exn? then Then(st.history, JournalFailed) else st.history
  {
  }

  lemma SaveShape(e: Env, st: State)
    ensures var f := Save(e, st);
            && !f.Ret? && f.state.trial == st.trial && f.state.result == st.result && f.state.attempt == st.attempt
            && f.state.history == if f.Exn? then Then(st.history, JournalFailed) else st.history
  {
  }

  lemma DoneShape(e: Env, st: State)
    ensures var f := Done(e, st);
            && !f.Go? && f.state.trial == st.trial && f.state.result == st.result.(finished := true)
            && f.state.attempt == st.attempt
            && f.state.history == if f.Exn? then Then(st.history, JournalFailed) else st.history
  {
  }

  lemma FailureIsLegal(h: History)
    requires !Scan(h).Illegal?
    ensures !Scan(Then(h, JournalFailed)).Illegal?
  {
  }

  /** Only the handler notes a failed rollback. */
  predicate Unmarked(st: State) {
    st.attempt.rollback != Some(RollbackFailed)
  }

  predicate Uncommitted(p: Phase) {
    p.Trialing? || Ready(p)
  }

  /** No rollback followed a commit so far, and a journal failure after a commit raises. */
  predicate CommitIntact(f: Flow) {
    var p := Scan(f.state.history);
    && !(p.RolledBack? && p.final)
    && (p.Committed? && p.broken ==> f.Exn? && !UndoneCommit(f.state.history))
  }

  /** Every stage of an attempt: never illegal, catchable when it raises, and bounded in its calls. */
  predicate Shape(e: Env, st: State, f: Flow, prepares: nat, commits: nat, rollbacks: nat) {
    && Within(st.history, f.state.history, prepares, commits, rollbacks)
    && !Scan(f.state.history).Illegal?
    && (f.Exn? ==> Catchable(f.state))
    && (Unmarked(st) ==> Unmarked(f.state))
    && (Uncommitted(Scan(st.history)) ==> CommitIntact(f))
    && (Earned(e, st) ==> Earned(e, f.state))
  }

  lemma PrepareShape(e: Env, st: State)
    requires Ready(Scan(st.history)) && st.trial.None?
    ensures var f := Prepare(e, st); !f.Ret? && Shape(e, st, f, 1, 0, 0) && (f.Go? ==> InTrial(f.state))
  {
  }

  /** A journal failure during a trial is catchable. */
  lemma TrialSurvivesFailure(st: State)
    requires InTrial(st) || (Catchable(st) && st.trial.Some?)
    ensures Catchable(Noted(st, JournalFailed)) && !Scan(Then(st.history, JournalFailed)).Illegal?
    ensures !Scan(st.history).Illegal?
  {
  }

  lemma OpenShape(e: Env, st: State, deadline: int)
    requires Ready(Scan(st.history)) && st.trial.None?
    ensures var f := Open(e, st, deadline); !f.Ret? && Shape(e, st, f, 1, 0, 0) && (f.Go? ==> InTrial(f.state))
  {
    hide Prepare, Journal, Save;
    PrepareShape(e, st);
    var b := Prepare(e, st);
    if b.Go? {
      TrialSurvivesFailure(b.state);
      JournalShape(e, b.state);
      var c := Journal(e, b.state);
      if c.Go? {
        SaveShape(e, c.state);
      }
    }
  }

  /** Both calls of a rollback fail, or the trial is rolled back. */
  lemma RollbackShape(e: Env, st: State, id: string)
    requires Catchable(st) && st.trial.Some? && Names(st.trial.value, id)
    ensures var f := Rollback(e, st, id);
            && !f.Ret? && f.state.trial == st.trial && f.state.verdict == st.verdict && f.state.result == st.result
            && f.state.attempt == st.attempt
            && Within(st.history, f.state.history, 0, 0, 2)
            && (Earned(e, st) ==> Earned(e, f.state))
            && Scan(f.state.history) == if f.Go? then Undone(Scan(st.history), id) else Scan(st.history)
  {
  }

  lemma UndoShape(e: Env, st: State)
    requires Catchable(st)
    ensures var f := Undo(e, st);
            && !f.Ret? && Shape(e, st, f, 0, 0, 2) && f.state.trial == st.trial && f.state.verdict == st.verdict
            && (Scan(f.state.history).Committed? ==> Scan(st.history).Committed?)
            && (f.Go? ==> Scan(f.state.history).RolledBack? && Catchable(f.state))
            && (f.Go? && Scan(st.history).Trialing? ==> Ready(Scan(f.state.history)))
  {
    hide Rollback, Journal;
    if st.trial.Some? && !st.trial.value.id.Absent? {
      var id := st.trial.value.id.text;
      RollbackShape(e, st, id);
      var a := Rollback(e, st, id);
      if a.Go? {
        JournalShape(e, a.state);
      }
    }
  }

  lemma UnchangedShape(e: Env, st: State)
    requires InTrial(st)
    ensures var f := Unchanged(e, st);
            !f.Ret? && Shape(e, st, f, 0, 0, 2) && (f.Go? ==> Ready(Scan(f.state.history)))
  {
    hide Undo;
    UndoShape(e, st);
  }

  lemma ObserveShape(e: Env, st: State)
    requires InTrial(st)
    ensures var f := Observe(e, st);
            && !f.Ret? && Shape(e, st, f, 0, 0, 0)
            && (f.Go? ==>
                  && InTrial(f.state) && Scan(f.state.history).last == Some(f.state.verdict)
                  && f.state.trial == st.trial)
  {
    hide Journal, ObservationState;
    var a := EvaluateGate(e, st);
    if a.Go? {
      JournalShape(e, a.state);
    }
  }

  lemma SampleShape(e: Env, st: State)
    requires InTrial(st)
    ensures var f := Sample(e, st);
            && !f.Ret? && Shape(e, st, f, 0, 0, 0)
            && (f.Go? ==>
                  && InTrial(f.state) && f.state.history == st.history
                  && f.state.verdict == st.verdict && f.state.trial == st.trial)
  {
  }

  predicate Decided(st: State) {
    InTrial(st) && Scan(st.history).last == Some(st.verdict)
  }

  lemma EvaluateShape(e: Env, st: State, deadline: int)
    requires InTrial(st)
    ensures var f := Evaluate(e, st, deadline);
            && !f.Ret? && Shape(e, st, f, 0, 0, 0) && (f.Go? ==> Decided(f.state) && f.state.trial == st.trial)
  {
    hide Observe, Sample;
    ObserveShape(e, st);
    var b := Observe(e, st);
    if b.Go? {
      var retrying := b.state.(attempt := b.state.attempt.(retried := true));
      ObserveShape(e, retrying);
      var c := if b.state.verdict == Unclear then Retry(e, b.state, deadline) else b;
      if c.Go? {
        SampleShape(e, c.state.(attempt := c.state.attempt.(observation := c.state.reading)));
      }
    }
  }

  lemma CommitShape(e: Env, st: State, id: string)
    requires Decided(st) && st.verdict == Up && st.trial.value.changed && Names(st.trial.value, id)
    ensures var f := Commit(e, st, id);
            && !f.Ret? && Shape(e, st, f, 0, 1, 0) && f.state.trial == st.trial
            && (f.Go? ==> Scan(f.state.history) == Committed(id, false) && CommitReturned(f.state.history))
  {
  }

  /** The trial is committed, nothing went wrong since, and the result says so. */
  predicate Succeeding(st: State) {
    Scan(st.history).Committed? && !Scan(st.history).broken && st.result.outcome == Succeeded
  }

  /** A journal failure right after the commit breaks it, and nothing is undone yet. */
  lemma AfterCommit(h: History, id: string)
    requires Scan(h) == Committed(id, false)
    ensures !UndoneCommit(h) && !UndoneCommit(Then(h, JournalFailed))
    ensures Scan(Then(h, JournalFailed)) == Committed(id, true)
    ensures CommitReturned(h) && CommitReturned(Then(h, JournalFailed))
  {
    FailureIsTracked(h);
  }

  lemma AcceptShape(e: Env, st: State, number: nat)
    requires Decided(st) && st.verdict == Up && st.trial.value.changed
    ensures var f := Accept(e, st, number);
            && !f.Go? && Shape(e, st, f, 0, 1, 0)
            && (f.Ret? ==> Succeeding(f.state))
  {
    hide Commit, Journal, Done, Step, UndoneCommit, CommitReturned;
    if !st.trial.value.id.Absent? {
      var id := st.trial.value.id.text;
      CommitShape(e, st, id);
      var a := Commit(e, st, id);
      if a.Go? {
        AfterCommit(a.state.history, id);
        JournalShape(e, a.state);
        var b := Journal(e, a.state);
        if b.Go? {
          var c := Listed(b.state.(attempt := b.state.attempt.(outcome := Succeeded, committed := true)));
          DoneShape(e, c.(result := c.result.(outcome := Succeeded, used := Some(number))));
        }
      }
    }
  }

  lemma RejectShape(e: Env, st: State, number: nat)
    requires InTrial(st)
    ensures var f := Reject(e, st, number);
            && Shape(e, st, f, 0, 0, 2)
            && (f.Go? || f.Ret? ==> Scan(f.state.history).RolledBack? && Ready(Scan(f.state.history)))
  {
    hide Undo, Done;
    UndoShape(e, st);
    var a := Undo(e, st);
    if a.Go? && a.state.verdict == Unclear {
      var b := Listed(a.state.(attempt := a.state.attempt.(outcome := Unsettled, layer := Some(ServiceProbe))));
      DoneShape(e, b.(result := b.result.(outcome := Unsettled, layer := Some(ServiceProbe), used := Some(number))));
    }
  }

  lemma TryShape(e: Env, st: State, number: nat, deadline: int)
    requires Ready(Scan(st.history)) && st.trial.None?
    ensures var f := Try(e, st, number, deadline);
            && Shape(e, st, f, 1, 1, 2)
            && (f.Go? ==> Ready(Scan(f.state.history)) && Within(st.history, f.state.history, 1, 0, 2))
            && (f.Ret? ==> Scan(f.state.history).RolledBack? || Succeeding(f.state))
  {
    hide Open, Unchanged, Evaluate, Accept, Reject, Scan;
    OpenShape(e, st, deadline);
    var a := Open(e, st, deadline);
    if a.Go? {
      if !a.state.trial.value.changed {
        UnchangedShape(e, a.state);
      } else {
        EvaluateShape(e, a.state, deadline);
        var b := Evaluate(e, a.state, deadline);
        if b.Go? {
          if b.state.verdict == Up {
            AcceptShape(e, b.state, number);
          } else {
            RejectShape(e, b.state, number);
          }
        }
      }
    }
  }

  /** The handler's rollback; a trial it could not close is open or was committed on a broken journal. */
  lemma SalvageShape(e: Env, st: State)
    requires Catchable(st)
    ensures var f := Salvage(e, st);
            && (f.Go? || f.Dead?) && Within(st.history, f.state.history, 0, 0, 2) && f.state.trial == st.trial
            && (Earned(e, st) ==> Earned(e, f.state))
            && !Scan(f.state.history).Illegal?
            && (Scan(f.state.history).Committed? ==> Scan(st.history).Committed?)
            && (f.Go? ==> Catchable(f.state))
            && (f.Go? && st.trial.Some? && st.trial.value.id.Named? ==>
                  !Unmarked(f.state) || Scan(f.state.history).RolledBack?)
            && (st.trial.None? || !st.trial.value.id.Named? ==> f == Go(st))
  {
    hide Undo;
    UndoShape(e, st);
  }

  /** A trial that the run leaves behind neither committed nor rolled back. */
  predicate LeftOpen(p: Phase) {
    p.Trialing? || (p.Committed? && p.broken)
  }

  /** The last attempt of the result records that its rollback failed. */
  predicate RecordsFailure(st: State) {
    var list := st.result.attempts;
    list != [] && list[|list| - 1].rollback == Some(RollbackFailed)
  }

  /** A failure after a commit led to a rollback call if the trial has a truthy id, and only then. */
  predicate CommitSettled(st: State) {
    var p, named := Scan(st.history), st.trial.Some? && st.trial.value.id.Named?;
    && (p.Committed? && p.broken && named ==> UndoneCommit(st.history))
    && (UndoneCommit(st.history) ==> named)
  }

  /** Before any commit there is nothing to settle. */
  lemma NothingToSettle(st: State)
    requires !Scan(st.history).Illegal? && !Scan(st.history).Committed?
    requires !(Scan(st.history).RolledBack? && Scan(st.history).final)
    ensures CommitSettled(st) && !UndoneCommit(st.history)
  {
    FailureIsTracked(st.history);
  }

  /**
   How a run may end. When it returns with a trial neither committed nor rolled back, then its failed
   rollback is on record exactly when the trial has a truthy id; and an unbroken commit means success.
   */
  predicate EndsWell(f: Flow) {
    && !f.Go? && !Scan(f.state.history).Illegal? && CommitSettled(f.state)
    && (f.Ret? && LeftOpen(Scan(f.state.history)) ==>
          f.state.trial.Some? && Catchable(f.state) && (f.state.trial.value.id.Named? <==> RecordsFailure(f.state)))
    && (f.Ret? && Scan(f.state.history).Committed? && !Scan(f.state.history).broken
        ==> f.state.result.outcome == Succeeded)
  }

  /** The handler settles what an attempt left, because it always tries to roll back a trial with a truthy id. */
  lemma HandleSettles(e: Env, st: State, number: nat)
    requires Catchable(st) && !UndoneCommit(st.history)
    ensures CommitSettled(Handle(e, st, number).state)
  {
    hide Salvage, Done, Scan, Step;
    SalvageShape(e, st);
    CatchableIsLegal(st);
    FailureIsTracked(st.history);
    var a := Salvage(e, st);
    var named := st.trial.Some? && st.trial.value.id.Named?;
    if named && CommitReturned(st.history) {
      HandlerUndoesCommit(e, st, number);
    }
    FailureIsTracked(a.state.history);
    if a.Go? {
      var b := Listed(a.state.(attempt := a.state.attempt.(layer := Some(RouteRuntime))));
      var c := b.(result := b.result.(layer := Some(RouteRuntime), used := Some(number)));
      DoneShape(e, c);
      FailureIsLegal(c.history);
      FailureIsTracked(Then(c.history, JournalFailed));
    }
  }

  lemma CatchableIsLegal(st: State)
    requires Catchable(st)
    ensures !Scan(st.history).Illegal?
  {
  }

  lemma IntactIsSettled(f: Flow)
    requires !Scan(f.state.history).Illegal? && CommitIntact(f)
    ensures !UndoneCommit(f.state.history) && (!f.Exn? ==> CommitSettled(f.state))
  {
    FailureIsTracked(f.state.history);
  }

  lemma HandleShape(e: Env, st: State, number: nat)
    requires Catchable(st) && Unmarked(st) && !UndoneCommit(st.history)
    ensures var f := Handle(e, st, number);
            && Within(st.history, f.state.history, 0, 0, 2) && EndsWell(f)
            && (Earned(e, st) ==> Earned(e, f.state))
  {
    hide Salvage, Done, Scan, CommitSettled;
    SalvageShape(e, st);
    HandleSettles(e, st, number);
    var a := Salvage(e, st);
    if a.Go? {
      var b := Listed(a.state.(attempt := a.state.attempt.(layer := Some(RouteRuntime))));
      var c := b.(result := b.result.(layer := Some(RouteRuntime), used := Some(number)));
      DoneShape(e, c);
      FailureIsLegal(c.history);
    }
  }

  /** One attempt: the run goes on only with its trial rolled back, and otherwise ends. */
  lemma AttemptShape(e: Env, st: State, number: nat, deadline: int)
    requires Ready(Scan(st.history))
    ensures var f := AttemptOnce(e, st, number, deadline);
            && Within(st.history, f.state.history, 1, 1, 4) && (Earned(e, st) ==> Earned(e, f.state))
            && (if f.Go? then Ready(Scan(f.state.history)) && Within(st.history, f.state.history, 1, 0, 2)
                else EndsWell(f))
  {
    hide Try, Handle, Scan, CommitIntact, CommitSettled;
    var begun := Begun(e, st, number);
    TryShape(e, begun, number, deadline);
    var t := Try(e, begun, number, deadline);
    IntactIsSettled(t);
    if t.Exn? {
      HandleShape(e, t.state, number);
    }
  }

  lemma ExhaustedShape(e: Env, st: State)
    requires Ready(Scan(st.history))
    ensures var f := Exhausted(e, st);
            EndsWell(f) && Within(st.history, f.state.history, 0, 0, 0) && (Earned(e, st) ==> Earned(e, f.state))
  {
    DoneShape(e, st.(result := st.result.(used := Some(|st.result.attempts|), layer := LastLayer(st.result.attempts))));
    FailureIsLegal(st.history);
    NothingToSettle(Exhausted(e, st).state);
  }

  lemma {:induction false} AttemptsShape(e: Env, st: State, number: nat, deadline: int)
    requires Ready(Scan(st.history)) && 1 <= number <= e.request.attempts + 1
    ensures var f, left := Attempts(e, st, number, deadline), e.request.attempts + 1 - number;
            && EndsWell(f) && Within(st.history, f.state.history, left, 1, 2 * left + 2)
            && (Earned(e, st) ==> Earned(e, f.state))
    decreases e.request.attempts + 1 - number
  {
    hide AttemptOnce, Exhausted, Scan, EndsWell, Earned;
    if number > e.request.attempts {
      ExhaustedShape(e, st);
    } else {
      AttemptShape(e, st, number, deadline);
      var t := AttemptOnce(e, st, number, deadline);
      if t.Go? {
        AttemptsShape(e, t.state, number + 1, deadline);
      }
    }
  }

  lemma BaselineShape(e: Env, st: State)
    requires Scan(st.history).Idle? && Earned(e, st)
    ensures var f := Baseline(e, st);
            && !f.Ret? && Within(st.history, f.state.history, 0, 0, 0)
            && Scan(f.state.history).Idle? && Earned(e, f.state)
            && f.state.result.outcome == st.result.outcome && f.state.trial == st.trial
  {
    hide Journal, Sample;
    var a := EvaluateGate(e, st);
    if a.Go? {
      var b := a.state.(result := a.state.result.(baseline := a.state.reading));
      JournalShape(e, b);
      var c := Journal(e, b);
      if c.Go? {
        IdleSampleShape(e, c.state);
      }
    }
  }

  lemma IdleSampleShape(e: Env, st: State)
    requires Scan(st.history).Idle?
    ensures var f := Sample(e, st);
            && !f.Ret? && f.state.trial == st.trial && f.state.result == st.result
            && f.state.history == if f.Exn? && f.state.history != st.history then Then(st.history,
                JournalFailed) else st.history
  {
  }

  lemma BrushedShape(e: Env, st: State, deadline: int)
    requires Scan(st.history).Idle? && Earned(e, st) && 1 <= e.request.attempts
    ensures var f, n := Brushed(e, st, deadline), e.request.attempts;
            EndsWell(f) && Within(st.history, f.state.history, n, 1, 2 * n + 2) && Earned(e, f.state)
  {
    hide Attempts, Done, CommitSettled;
    AttemptsShape(e, st, 1, deadline);
    var satisfied := st.(result := st.result.(outcome := AlreadySatisfied));
    var unsettled := st.(result := st.result.(outcome := Unsettled, layer := Some(ServiceProbe)));
    DoneShape(e, satisfied);
    DoneShape(e, unsettled);
    NothingToSettle(Done(e, satisfied).state);
    NothingToSettle(Done(e, unsettled).state);
  }

  /**
   Every run, whatever fails in it, follows the control protocol: no trial is prepared while another
   is open, none is committed without a changed address and an available last verdict, none is
   rolled back after a commit on a working journal; and its calls are bounded.
   */
  lemma RunFollowsProtocol(e: Env, next: nat, rows: seq<JournalRow>)
    ensures var f, n := Run(e, Initial(next, rows)), e.request.attempts;
            && !f.Go? && !Scan(f.state.history).Illegal?
            && Prepares(f.state.history) <= (if n < 0 then 0 else n) && Commits(f.state.history) <= 1
            && Rollbacks(f.state.history) <= (if n < 0 then 0 else 2 * n + 2)
            && Earned(e, f.state) && EndsWell(f)
  {
    hide Begin, Baseline, Brushed, CommitSettled;
    var st := Initial(next, rows);
    assert Earned(e, st) && Scan(st.history).Idle?;
    NothingToSettle(st);
    if Admissible(e.request) {
      BeginShape(e, st);
      var a := Begin(e, st, e.script.clock(next));
      NothingToSettle(a.state);
      if a.Go? {
        BaselineShape(e, a.state);
        var b := Baseline(e, a.state);
        NothingToSettle(b.state);
        if b.Go? {
          BrushedShape(e, b.state, e.script.mono(a.state.next) + e.request.deadlineSeconds);
        }
      }
    }
  }

  lemma BeginShape(e: Env, st: State)
    requires Scan(st.history).Idle? && Earned(e, st)
    ensures var f := Begin(e, st, e.script.clock(st.next));
            && !f.Ret? && Within(st.history, f.state.history, 0, 0, 0)
            && Scan(f.state.history).Idle? && Earned(e, f.state)
            && f.state.result == st.result && f.state.trial == st.trial
  {
  }

  // ----- What following the protocol means, said of the history itself.

  function NotNamed(trials: seq<Trial>, id: string): seq<Trial> {
    if trials == [] then []
    else (if Names(trials[0], id) then [] else [trials[0]]) + NotNamed(trials[1..], id)
  }

  /** The trials that were prepared and not successfully rolled back since. */
  function Unclosed(h: History): seq<Trial> {
    match h
    case Start => []
    case Then(past, PrepareCall(_, _, fate, trial)) => Unclosed(past) + (if fate == Returns then [trial] else [])
    case Then(past, RollbackCall(id, fate)) => if fate == Returns then NotNamed(Unclosed(past), id) else Unclosed(past)
    case Then(past, _) => Unclosed(past)
  }

  /** The last gate verdict since the last prepare. */
  function LastVerdict(h: History): Option<Verdict> {
    match h
    case Start => None
    case Then(past, PrepareCall(_, _, _, _)) => None
    case Then(past, GateVerdict(v, _, _)) => Some(v)
    case Then(past, _) => LastVerdict(past)
  }

  /** The gate reading behind the last verdict, and when it was judged. */
  function LastReading(h: History): Option<(Option<Reading>, int)> {
    match h
    case Start => None
    case Then(past, PrepareCall(_, _, _, _)) => None
    case Then(past, GateVerdict(_, reading, now)) => Some((reading, now))
    case Then(past, _) => LastReading(past)
  }

  lemma {:induction false} LastVerdictIsHonest(scenario: string, h: History)
    requires GatesHonest(scenario, h)
    ensures LastVerdict(h).Some? <==> LastReading(h).Some?
    ensures LastVerdict(h) == Some(Up) ==>
              && LastReading(h).value.0.Some?
              && ObservationState(LastReading(h).value.0.value, scenario, LastReading(h).value.1) == Up
  {
    match h
    case Start =>
    case Then(past, entry) =>
      if !entry.PrepareCall? && !entry.GateVerdict? {
        LastVerdictIsHonest(scenario, past);
      }
  }

  /** A verdict is available exactly on a fresh, eligible observation of the very scenario that says so. */
  lemma AvailableMeans(o: Reading, scenario: string, now: int)
    ensures ObservationState(o, scenario, now) == Up
            <==> && (o.version == 1 || o.version == 2) && o.scenarioId == scenario
                 && o.freshUntil.Some? && now < o.freshUntil.value && o.eligible
                 && o.availability == Provenance.Available
    ensures ObservationState(o, scenario, now) == Down
            <==> && (o.version == 1 || o.version == 2) && o.scenarioId == scenario
                 && o.freshUntil.Some? && now < o.freshUntil.value && o.eligible
                 && o.availability == Provenance.Unavailable
  {
  }

  lemma {:induction false} PartsAreHonest(scenario: string, h: History, past: History, entry: Entry)
    requires GatesHonest(scenario, h) && Contains(h, past, entry)
    ensures GatesHonest(scenario, past)
  {
    if h != Then(past, entry) {
      PartsAreHonest(scenario, h.past, past, entry);
    }
  }

  predicate JournalWorks(h: History) {
    match h
    case Start => true
    case Then(past, entry) => JournalWorks(past) && !entry.JournalFailed?
  }

  /** Some rollback is called after a successful commit. */
  predicate UndoneCommit(h: History) {
    match h
    case Start => false
    case Then(past, entry) => UndoneCommit(past) || (entry.RollbackCall? && CommitReturned(past))
  }

  /** Some event or save fails after a successful commit. */
  predicate FailedAfterCommit(h: History) {
    match h
    case Start => false
    case Then(past, entry) => FailedAfterCommit(past) || (entry.JournalFailed? && CommitReturned(past))
  }

  /** A rollback after a commit is legal only after such a failure, and the automaton knows of both. */
  lemma {:induction false} FailureIsTracked(h: History)
    requires !Scan(h).Illegal?
    ensures var p := Scan(h);
            && (CommitReturned(h) <==> p.Committed? || (p.RolledBack? && p.final))
            && (FailedAfterCommit(h) <==> (p.Committed? && p.broken) || (p.RolledBack? && p.final))
            && (UndoneCommit(h) ==> FailedAfterCommit(h))
            && (p.RolledBack? && p.final ==> UndoneCommit(h))
  {
    match h
    case Start =>
    case Then(past, entry) => FailureIsTracked(past);
  }

  lemma OneNamed(trials: seq<Trial>, id: string)
    requires |trials| == 1
    ensures Names(trials[0], id) ==> NotNamed(trials, id) == []
  {
    assert trials[1..] == [];
  }

  /** Everything the automaton remembers is true of the history. */
  lemma {:induction false} ScanIsFaithful(h: History)
    requires !Scan(h).Illegal?
    ensures match Scan(h)
            case Idle => Unclosed(h) == [] && !CommitReturned(h)
            case Trialing(trial, last) => Unclosed(h) == [trial] && LastVerdict(h) == last && !CommitReturned(h)
            case RolledBack(id, final) => Unclosed(h) == [] && (CommitReturned(h) <==> final) && (JournalWorks(h)
                ==> !final)
            case Committed(id, broken) => |Unclosed(h)| == 1 && Names(Unclosed(h)[0], id) && CommitReturned(h)
                                          && (JournalWorks(h) ==> !broken)
            case Over => Unclosed(h) == []
            case Illegal => true
    ensures JournalWorks(h) ==> !UndoneCommit(h)
  {
    match h
    case Start =>
    case Then(past, entry) =>
      ScanIsFaithful(past);
      if |Unclosed(past)| == 1 && entry.RollbackCall? {
        OneNamed(Unclosed(past), entry.id);
      }
  }

  /** The entries of the history, in order, with what came before each. */
  predicate Contains(h: History, past: History, entry: Entry) {
    match h
    case Start => false
    case Then(p, x) => (p == past && x == entry) || Contains(p, past, entry)
  }

  lemma {:induction false} PartsAreLegal(h: History, past: History, entry: Entry)
    requires !Scan(h).Illegal? && Contains(h, past, entry)
    ensures !Scan(past).Illegal? && !Scan(Then(past, entry)).Illegal?
  {
    if h != Then(past, entry) {
      PartsAreLegal(h.past, past, entry);
    }
  }

  /** Whenever a run prepares a trial, every earlier trial has been rolled back. */
  lemma PreparesOnlyWhenAllRolledBack(e: Env, next: nat, rows: seq<JournalRow>, past: History, entry: Entry)
    requires Contains(Run(e, Initial(next, rows)).state.history, past, entry) && entry.PrepareCall?
    ensures Unclosed(past) == []
  {
    hide Run;
    RunFollowsProtocol(e, next, rows);
    PartsAreLegal(Run(e, Initial(next, rows)).state.history, past, entry);
    ScanIsFaithful(past);
  }

  /**
   A run commits only the one open trial, and only with a changed address and a last gate observation
   that was fresh, eligible and available when it was judged.
   */
  lemma CommitsOnlyChangedAndAvailable(e: Env, next: nat, rows: seq<JournalRow>, past: History, entry: Entry)
    requires Contains(Run(e, Initial(next, rows)).state.history, past, entry) && entry.CommitCall?
    ensures |Unclosed(past)| == 1 && Names(Unclosed(past)[0], entry.id) && Unclosed(past)[0].changed
    ensures LastReading(past).Some? && LastReading(past).value.0.Some?
    ensures var o, judged := LastReading(past).value.0.value, LastReading(past).value.1;
            && o.scenarioId == e.request.scenarioId && o.freshUntil.Some? && judged < o.freshUntil.value
            && o.eligible && o.availability == Provenance.Available
  {
    hide Run, Scan, ObservationState;
    RunFollowsProtocol(e, next, rows);
    PartsAreLegal(Run(e, Initial(next, rows)).state.history, past, entry);
    PartsAreHonest(e.request.scenarioId, Run(e, Initial(next, rows)).state.history, past, entry);
    CommitIsLegal(past, entry);
    LastVerdictIsHonest(e.request.scenarioId, past);
    AvailableMeans(LastReading(past).value.0.value, e.request.scenarioId, LastReading(past).value.1);
  }

  lemma CommitIsLegal(past: History, entry: Entry)
    requires !Scan(past).Illegal? && !Scan(Then(past, entry)).Illegal? && entry.CommitCall?
    ensures |Unclosed(past)| == 1 && Names(Unclosed(past)[0], entry.id) && Unclosed(past)[0].changed
    ensures LastVerdict(past) == Some(Up)
  {
    ScanIsFaithful(past);
  }

  /** With a journal that never fails, no trial is rolled back after its commit. */
  lemma WorkingJournalNeverUndoesCommit(e: Env, next: nat, rows: seq<JournalRow>)
    requires JournalWorks(Run(e, Initial(next, rows)).state.history)
    ensures !UndoneCommit(Run(e, Initial(next, rows)).state.history)
  {
    hide Run;
    RunFollowsProtocol(e, next, rows);
    ScanIsFaithful(Run(e, Initial(next, rows)).state.history);
  }

  /** With such a journal the reported outcome is exact: success if and only if a commit returned. */
  lemma SuccessIsCommit(e: Env, next: nat, rows: seq<JournalRow>)
    requires var f := Run(e, Initial(next, rows)); f.Ret? && JournalWorks(f.state.history)
    ensures var t := Run(e, Initial(next, rows)).state;
            t.result.outcome == Succeeded <==> CommitReturned(t.history)
  {
    hide Run;
    RunFollowsProtocol(e, next, rows);
    ScanIsFaithful(Run(e, Initial(next, rows)).state.history);
  }

  /**
   What a returning run leaves behind. A trial that was not rolled back was either committed, or its
   failed rollback is on record if and only if control gave it a truthy id.
   */
  lemma TrialsAreAccountedFor(e: Env, next: nat, rows: seq<JournalRow>, trial: Trial)
    requires var f := Run(e, Initial(next, rows)); f.Ret? && trial in Unclosed(f.state.history)
    ensures var t := Run(e, Initial(next, rows)).state;
            if CommitReturned(t.history) then Scan(t.history).Committed? && Names(trial, Scan(t.history).id)
            else RecordsFailure(t) <==> trial.id.Named?
  {
    hide Run;
    RunFollowsProtocol(e, next, rows);
    ScanIsFaithful(Run(e, Initial(next, rows)).state.history);
  }

  /** Every prepared trial was rolled back, committed, or recorded as `rollback: failed`. */
  predicate NothingLost(st: State) {
    Unclosed(st.history) == [] || CommitReturned(st.history) || RecordsFailure(st)
  }

  /** A run keeps track of all its trials exactly when no trial left open came without a truthy id. */
  lemma NothingLostExactly(e: Env, next: nat, rows: seq<JournalRow>)
    requires Run(e, Initial(next, rows)).Ret?
    ensures var t := Run(e, Initial(next, rows)).state;
            NothingLost(t) <==>
              CommitReturned(t.history) || forall trial | trial in Unclosed(t.history) :: trial.id.Named?
  {
    hide Run, Scan, RecordsFailure, CommitReturned;
    var t := Run(e, Initial(next, rows)).state;
    forall trial | trial in Unclosed(t.history) && !CommitReturned(t.history)
      ensures RecordsFailure(t) <==> trial.id.Named?
    {
      TrialsAreAccountedFor(e, next, rows, trial);
    }
    assert Unclosed(t.history) == [] || Unclosed(t.history)[0] in Unclosed(t.history);
  }

  lemma {:induction false} AbsentIsNotNamed(trials: seq<Trial>, trial: Trial, id: string)
    requires trial in trials && trial.id.Absent?
    ensures trial in NotNamed(trials, id)
  {
    if trials[0] != trial {
      AbsentIsNotNamed(trials[1..], trial, id);
    }
  }

  lemma {:induction false} AbsentStaysUnclosed(h: History, past: History, entry: Entry)
    requires Contains(h, past, entry) && entry.PrepareCall? && entry.fate == Returns && entry.trial.id.Absent?
    ensures entry.trial in Unclosed(h)
  {
    if h != Then(past, entry) {
      AbsentStaysUnclosed(h.past, past, entry);
      if h.entry.RollbackCall? {
        AbsentIsNotNamed(Unclosed(h.past), entry.trial, h.entry.id);
      }
    }
  }

  /** A trial without an id is lost in every run that prepares it and returns, whether or not anything fails. */
  lemma NamelessTrialIsLost(e: Env, next: nat, rows: seq<JournalRow>, past: History, entry: Entry)
    requires var f := Run(e, Initial(next, rows)); f.Ret? && Contains(f.state.history, past, entry)
    requires entry.PrepareCall? && entry.fate == Returns && entry.trial.id.Absent?
    ensures var t := Run(e, Initial(next, rows)).state;
            entry.trial in Unclosed(t.history) && !CommitReturned(t.history) && !RecordsFailure(t) && !NothingLost(t)
  {
    hide Run;
    var t := Run(e, Initial(next, rows)).state;
    AbsentStaysUnclosed(t.history, past, entry);
    RunFollowsProtocol(e, next, rows);
    ScanIsFaithful(t.history);
    TrialsAreAccountedFor(e, next, rows, entry.trial);
  }

  // ----- When a run changes anything at all.

  lemma OpenPrepares(e: Env, st: State, deadline: int)
    requires Ready(Scan(st.history)) && st.trial.None?
    ensures Prepares(Open(e, st, deadline).state.history)
            == Prepares(st.history) + if e.script.mono(st.next) < deadline then 1 else 0
    ensures e.script.mono(st.next) >= deadline ==> Open(e, st, deadline).Exn?
  {
    hide Journal, Save;
    if e.script.mono(st.next) < deadline {
      var b := Prepare(e, st);
      if b.Go? {
        JournalShape(e, b.state);
        var c := Journal(e, b.state);
        if c.Go? {
          SaveShape(e, c.state);
        }
      }
    }
  }

  /** The first attempt prepares a trial exactly when the deadline has not passed. */
  lemma FirstAttemptPrepares(e: Env, st: State, deadline: int)
    requires Scan(st.history).Idle? && Prepares(st.history) == 0
    ensures Prepares(AttemptOnce(e, st, 1, deadline).state.history) > 0 <==> e.script.mono(st.next) < deadline
    ensures AttemptOnce(e, st, 1, deadline).Go? ==> e.script.mono(st.next) < deadline
  {
    hide Open, Unchanged, Evaluate, Accept, Reject, Handle, Scan;
    var begun := Begun(e, st, 1);
    OpenShape(e, begun, deadline);
    OpenPrepares(e, begun, deadline);
    TryShape(e, begun, 1, deadline);
    var a, t := Open(e, begun, deadline), Try(e, begun, 1, deadline);
    if a.Go? {
      if !a.state.trial.value.changed {
        UnchangedShape(e, a.state);
      } else {
        EvaluateShape(e, a.state, deadline);
        var b := Evaluate(e, a.state, deadline);
        if b.Go? {
          if b.state.verdict == Brush.Up {
            AcceptShape(e, b.state, 1);
          } else {
            RejectShape(e, b.state, 1);
          }
        }
      }
    }
    IntactIsSettled(t);
    if t.Exn? {
      HandlePrepares(e, t.state, 1);
    }
  }

  lemma HandlePrepares(e: Env, st: State, number: nat)
    requires Catchable(st) && Unmarked(st) && !UndoneCommit(st.history)
    ensures Prepares(Handle(e, st, number).state.history) == Prepares(st.history) && !Handle(e, st, number).Go?
  {
    hide Handle;
    HandleShape(e, st, number);
  }

  /**
   A run touches the egress only if it must: after a baseline it prepares a trial if and only if the
   service is down, or available with a forced change, and the deadline has not passed.
   */
  lemma PreparesExactlyWhenNeeded(e: Env, st: State, deadline: int)
    requires Scan(st.history).Idle? && Prepares(st.history) == 0 && st.reading.Some? && 1 <= e.request.attempts
    ensures var verdict := ObservationState(st.reading.value, e.request.scenarioId, e.script.clock(st.next));
            Prepares(Brushed(e, st, deadline).state.history) > 0
            <==> (verdict == Brush.Down || (verdict == Brush.Up && e.request.forceChange))
                 && e.script.mono(st.next) < deadline
  {
    hide Done, AttemptOnce, Scan, ObservationState;
    DoneShape(e, st.(result := st.result.(outcome := AlreadySatisfied)));
    DoneShape(e, st.(result := st.result.(outcome := Unsettled, layer := Some(ServiceProbe))));
    FirstAttemptPrepares(e, st, deadline);
    FirstAttemptCounts(e, st, deadline);
    assert Attempts(e, st, 1, deadline) == match AttemptOnce(e, st, 1, deadline)
                                            case Go(t) => Attempts(e, t, 2, deadline)
                                            case f => f;
  }

  /** Later attempts can only add prepares. */
  lemma FirstAttemptCounts(e: Env, st: State, deadline: int)
    requires Scan(st.history).Idle? && 1 <= e.request.attempts
    ensures var a := AttemptOnce(e, st, 1, deadline);
            a.Go? ==> Prepares(a.state.history) <= Prepares(Attempts(e, a.state, 2, deadline).state.history)
  {
    hide AttemptOnce, Attempts;
    AttemptShape(e, st, 1, deadline);
    var a := AttemptOnce(e, st, 1, deadline);
    if a.Go? {
      AttemptsShape(e, a.state, 2, deadline);
    }
  }

  /** A rollback is called once more exactly after a first call that raised. */
  lemma RollbackRetriesOnce(e: Env, st: State, id: string)
    ensures var f, first, second := Rollback(e, st, id), e.script.fate(st.next), e.script.fate(st.next + 1);
            && Rollbacks(f.state.history) == Rollbacks(st.history) + (if first == Raises then 2 else 1)
            && (f.Go? <==> first == Returns || (first == Raises && second == Returns))
            && (f.Exn? <==> first == Raises && second == Raises)
  {
  }

  // ----- Where the guarantees need their conditions.

  const CALM: nat -> Fate := n => Returns

  /** A script in which nothing fails, the service is down, and every trial is the given one. */
  function AlwaysDown(trial: Trial): Script {
    Script(CALM, n => trial, n => Reading(2, "s", Some(9999), true, Provenance.Unavailable), n => 0, n => 0, n => 0)
  }

  function OneAttempt(journaled: bool, script: Script): Env {
    Env(script, Request(true, "s", 1, Some(Auto), 60, false, 60, COOLDOWN), journaled)
  }

  /** A script in which nothing fails, but the deadline passes while the trial is prepared. */
  function SlowPrepare(trial: Trial): Script {
    AlwaysDown(trial).(mono := n => if n < 3 then 0 else 60)
  }

  /**
   A trial whose id is present but falsy is lost when, for instance, the deadline passes before its
   address is evaluated: the rollback the code could make with that id is not even tried.
   */
  lemma FalsyTrialIsLost(text: string)
    ensures var trial := Trial(Falsy(text), true);
            var f := Run(OneAttempt(false, SlowPrepare(trial)), Initial(0, []));
            && f.Ret? && Unclosed(f.state.history) == [trial] && Rollbacks(f.state.history) == 0
            && !NothingLost(f.state)
  {
    hide AttemptOnce;
    var trial := Trial(Falsy(text), true);
    var e := OneAttempt(false, SlowPrepare(trial));
    var st := Baseline(e, Initial(0, [])).state;
    assert st.history == Start && st.next == 2;
    FalsyAttempt(e, st, trial);
  }

  lemma FalsyAttempt(e: Env, st: State, trial: Trial)
    requires trial.id.Falsy? && trial.changed && st.history == Start && st.next == 2
    requires e == OneAttempt(false, SlowPrepare(trial))
    ensures var f := AttemptOnce(e, st, 1, 60);
            && f.Ret? && Unclosed(f.state.history) == [trial] && Rollbacks(f.state.history) == 0
            && !NothingLost(f.state)
  {
    var a := Open(e, Begun(e, st, 1), 60);
    assert a.Go? && a.state.history == Then(Start, PrepareCall(2, Reconnect, Returns, trial));
    assert a.state.attempt.rollback == None;
    assert Unclosed(Start) == [];
    var b := Evaluate(e, a.state, 60);
    assert b.Exn? && b.state.history == a.state.history && b.state.attempt.rollback == None;
    assert !CommitReturned(Start) && !CommitReturned(b.state.history);
  }

  lemma RollbackUndoes(e: Env, st: State, id: string)
    requires CommitReturned(st.history)
    ensures UndoneCommit(Rollback(e, st, id).state.history) && Rollback(e, st, id).state.result == st.result
  {
  }

  /** The handler always tries to roll back, even what has been committed. */
  lemma HandlerUndoesCommit(e: Env, st: State, number: nat)
    requires st.trial.Some? && st.trial.value.id.Named? && CommitReturned(st.history)
    ensures UndoneCommit(Handle(e, st, number).state.history)
    ensures Handle(e, st, number).state.result.outcome == st.result.outcome
  {
    hide Rollback, Journal, Done;
    var id := st.trial.value.id.text;
    RollbackUndoes(e, st, id);
    var a := Rollback(e, st, id);
    if a.Go? {
      JournalShape(e, a.state);
    }
    var b := Salvage(e, st);
    if b.Go? {
      var c := Listed(b.state.(attempt := b.state.attempt.(layer := Some(RouteRuntime))));
      DoneShape(e, c.(result := c.result.(layer := Some(RouteRuntime), used := Some(number))));
    }
  }

  /**
   After a commit that returned, the committed trial is rolled back if and only if one of the two
   journal writes that follow raises. When it is the second one, the result claims success nevertheless.
   */
  lemma CommitIsUndoneExactly(e: Env, st: State, number: nat)
    requires e.journaled && Decided(st) && st.verdict == Brush.Up && st.trial.value.id.Named?
    requires !CommitReturned(st.history) && !UndoneCommit(st.history) && e.script.fate(st.next) == Returns
    ensures var f, raised := Accept(e, st, number),
                             e.script.fate(st.next + 1) == Raises
                             || (e.script.fate(st.next + 1) == Returns && e.script.fate(st.next + 2) == Raises);
            && (f.Exn? <==> raised) && CommitReturned(f.state.history)
            && UndoneCommit((if f.Exn? then Handle(e, f.state, number) else f).state.history) == raised
            && (raised ==> Handle(e, f.state, number).state.result.outcome
                           == if e.script.fate(st.next + 1) == Returns then Succeeded else st.result.outcome)
  {
    hide Handle;
    var f := Accept(e, st, number);
    AcceptedHistory(e, st, number);
    if f.Exn? {
      HandlerUndoesCommit(e, f.state, number);
    }
  }

  /**
   Said of whole runs: a rollback is called after a commit that returned if and only if a later event or
   save failed and control gave the committed trial a truthy id.
   */
  lemma CommitsAreUndoneExactly(e: Env, next: nat, rows: seq<JournalRow>)
    ensures var t := Run(e, Initial(next, rows)).state;
            UndoneCommit(t.history) <==>
              FailedAfterCommit(t.history) && t.trial.Some? && t.trial.value.id.Named?
  {
    hide Run;
    RunFollowsProtocol(e, next, rows);
    FailureIsTracked(Run(e, Initial(next, rows)).state.history);
  }

  lemma AcceptedHistory(e: Env, st: State, number: nat)
    requires e.journaled && Decided(st) && st.trial.value.id.Named? && e.script.fate(st.next) == Returns
    requires !CommitReturned(st.history) && !UndoneCommit(st.history)
    ensures var f, raised := Accept(e, st, number),
                             e.script.fate(st.next + 1) == Raises
                             || (e.script.fate(st.next + 1) == Returns && e.script.fate(st.next + 2) == Raises);
            && (f.Exn? <==> raised) && f.state.trial == st.trial
            && CommitReturned(f.state.history) && !UndoneCommit(f.state.history)
            && (raised ==> f.state.result.outcome
                           == if e.script.fate(st.next + 1) == Returns then Succeeded else st.result.outcome)
  {
  }

  /** A script with a good candidate, in which the save after the commit, operation number 14, raises. */
  function LastSaveFails(trial: Trial): Script {
    AlwaysDown(trial).(gate := n => Reading(2, "s", Some(9999), true, if n == 1 then Provenance.Unavailable
                                                                       else Provenance.Available),
                       fate := n => if n == 14 then Raises else Returns)
  }

  /** A run that returns `succeeded` although it rolled back what it committed. */
  lemma UndoneSuccess(id: string)
    ensures var f := Run(OneAttempt(true, LastSaveFails(Trial(Named(id), true))), Initial(0, []));
            && f.Ret? && f.state.result.outcome == Succeeded
            && CommitReturned(f.state.history) && UndoneCommit(f.state.history) && Unclosed(f.state.history) == []
  {
    hide AttemptOnce, Begin, Baseline, Exhausted;
    var e := OneAttempt(true, LastSaveFails(Trial(Named(id), true)));
    var begun := Begin(e, Initial(0, []), 0).state;
    var st := Baseline(e, begun).state;
    BaselineIsDown(e, id);
    UndoneAttempt(e, st, id);
  }

  lemma BaselineIsDown(e: Env, id: string)
    requires e == OneAttempt(true, LastSaveFails(Trial(Named(id), true)))
    ensures var a := Begin(e, Initial(0, []), 0);
            var b := Baseline(e, a.state);
            && a.Go? && a.state.next == 1
            && b.Go? && b.state.history == Start && b.state.next == 5 && b.state.reading == Some(e.script.gate(1))
  {
  }

  lemma UndoneAttempt(e: Env, st: State, id: string)
    requires e == OneAttempt(true, LastSaveFails(Trial(Named(id), true))) && st.history == Start && st.next == 5
    ensures var f := AttemptOnce(e, st, 1, 60);
            && f.Ret? && f.state.result.outcome == Succeeded
            && CommitReturned(f.state.history) && UndoneCommit(f.state.history) && Unclosed(f.state.history) == []
  {
    hide Open, Evaluate, Accept, Handle, Scan, Unclosed;
    var trial := Trial(Named(id), true);
    OpensTrial(e, Begun(e, st, 1), trial);
    var a := Open(e, Begun(e, st, 1), 60).state;
    EvaluateShape(e, a, 60);
    EvaluatesUp(e, a, trial);
    var b := Evaluate(e, a, 60).state;
    TrialIsOpen(b, trial);
    CommitIsUndoneExactly(e, b, 1);
    AcceptedTrial(e, b, trial);
    var t := Accept(e, b, 1).state;
    HandlerReturns(e, t, id);
    UndoneMeansCommitted(Handle(e, t, 1).state.history);
  }

  lemma {:induction false} UndoneMeansCommitted(h: History)
    ensures UndoneCommit(h) ==> CommitReturned(h)
  {
    match h
    case Start =>
    case Then(past, _) => UndoneMeansCommitted(past);
  }

  lemma OpensTrial(e: Env, st: State, trial: Trial)
    requires e == OneAttempt(true, LastSaveFails(trial)) && st.history == Start && st.next == 5
    ensures var f := Open(e, st, 60); f.Go? && f.state.next == 8 && f.state.trial == Some(trial) && InTrial(f.state)
  {
  }

  lemma TrialIsOpen(st: State, trial: Trial)
    requires InTrial(st) && st.trial == Some(trial)
    ensures !CommitReturned(st.history) && !UndoneCommit(st.history) && Unclosed(st.history) == [trial]
  {
    ScanIsFaithful(st.history);
    FailureIsTracked(st.history);
  }

  lemma EvaluatesUp(e: Env, st: State, trial: Trial)
    requires e == OneAttempt(true, LastSaveFails(trial)) && st.next == 8 && st.trial == Some(trial)
    ensures var f := Evaluate(e, st, 60); f.Go? && f.state.next == 12 && f.state.verdict == Brush.Up
  {
  }

  lemma AcceptedTrial(e: Env, st: State, trial: Trial)
    requires e == OneAttempt(true, LastSaveFails(trial)) && trial.id.Named? && st.next == 12
    requires st.trial == Some(trial) && Unclosed(st.history) == [trial]
    ensures var f := Accept(e, st, 1);
            f.Exn? && f.state.trial == Some(trial) && f.state.next == 15 && Unclosed(f.state.history) == [trial]
  {
  }

  lemma HandlerReturns(e: Env, st: State, id: string)
    requires e == OneAttempt(true, LastSaveFails(Trial(Named(id), true))) && st.next == 15
    requires st.trial == Some(Trial(Named(id), true)) && Unclosed(st.history) == [Trial(Named(id), true)]
    ensures Handle(e, st, 1).Ret? && Unclosed(Handle(e, st, 1).state.history) == []
  {
    OneNamed(Unclosed(st.history), id);
  }
}
