/** Two-run and many-run properties of brushing: performance never decides, and the cooldown always holds. */
module BrushRuns {
  import opened Wrappers
  import opened Brush
  import opened BrushTheorems
  import opened Provenance

  // ----- Performance never decides.

  /** The two runs see the same world except for their performance observations. */
  ghost predicate SamePlan(e: Env, g: Env) {
    && e.request == g.request && e.journaled == g.journaled
    && e.script.fate == g.script.fate && e.script.trial == g.script.trial && e.script.gate == g.script.gate
    && e.script.clock == g.script.clock && e.script.mono == g.script.mono
  }

  /** Equal in everything but the performance samples. */
  predicate Same(a: State, b: State) {
    a.(samples := []) == b.(samples := [])
  }

  predicate SameEnd(f: Flow, g: Flow) {
    && (f.Go? <==> g.Go?) && (f.Exn? <==> g.Exn?) && (f.Dead? <==> g.Dead?) && Same(f.state, g.state)
  }

  lemma SameJournal(e: Env, g: Env, a: State, b: State)
    requires SamePlan(e, g) && Same(a, b)
    ensures SameEnd(Journal(e, a), Journal(g, b))
  {
  }

  lemma SameSave(e: Env, g: Env, a: State, b: State)
    requires SamePlan(e, g) && Same(a, b)
    ensures SameEnd(Save(e, a), Save(g, b))
  {
  }

  lemma SamePrepare(e: Env, g: Env, a: State, b: State)
    requires SamePlan(e, g) && Same(a, b)
    ensures SameEnd(Prepare(e, a), Prepare(g, b))
  {
  }

  lemma SameOpen(e: Env, g: Env, a: State, b: State, deadline: int)
    requires SamePlan(e, g) && Same(a, b)
    ensures SameEnd(Open(e, a, deadline), Open(g, b, deadline))
  {
    hide Prepare, Journal, Save;
    SamePrepare(e, g, a, b);
    var x, y := Prepare(e, a), Prepare(g, b);
    if x.Go? {
      SameJournal(e, g, x.state, y.state);
      var p, q := Journal(e, x.state), Journal(g, y.state);
      if p.Go? {
        SameSave(e, g, p.state, q.state);
      }
    }
  }

  lemma SameRollback(e: Env, g: Env, a: State, b: State, id: string)
    requires SamePlan(e, g) && Same(a, b)
    ensures SameEnd(Rollback(e, a, id), Rollback(g, b, id))
  {
  }

  lemma SameUndo(e: Env, g: Env, a: State, b: State)
    requires SamePlan(e, g) && Same(a, b)
    ensures SameEnd(Undo(e, a), Undo(g, b))
  {
    hide Rollback, Journal;
    if a.trial.Some? && !a.trial.value.id.Absent? {
      var id := a.trial.value.id.text;
      SameRollback(e, g, a, b, id);
      var x, y := Rollback(e, a, id), Rollback(g, b, id);
      if x.Go? {
        SameJournal(e, g, x.state, y.state);
      }
    }
  }

  lemma SameDone(e: Env, g: Env, a: State, b: State)
    requires SamePlan(e, g) && Same(a, b)
    ensures SameEnd(Done(e, a), Done(g, b))
  {
  }

  lemma SameObserve(e: Env, g: Env, a: State, b: State)
    requires SamePlan(e, g) && Same(a, b)
    ensures SameEnd(Observe(e, a), Observe(g, b))
  {
  }

  lemma SameSample(e: Env, g: Env, a: State, b: State)
    requires SamePlan(e, g) && Same(a, b)
    ensures SameEnd(Sample(e, a), Sample(g, b))
  {
  }

  lemma SameRetry(e: Env, g: Env, a: State, b: State, deadline: int)
    requires SamePlan(e, g) && Same(a, b)
    ensures SameEnd(Retry(e, a, deadline), Retry(g, b, deadline))
  {
    hide Observe;
    SameObserve(e, g, a.(attempt := a.attempt.(retried := true)), b.(attempt := b.attempt.(retried := true)));
  }

  lemma SameEvaluate(e: Env, g: Env, a: State, b: State, deadline: int)
    requires SamePlan(e, g) && Same(a, b)
    ensures SameEnd(Evaluate(e, a, deadline), Evaluate(g, b, deadline))
  {
    hide Observe, Sample, Retry;
    SameObserve(e, g, a, b);
    var x, y := Observe(e, a), Observe(g, b);
    if x.Go? {
      SameRetry(e, g, x.state, y.state, deadline);
      var p := if x.state.verdict == Unclear then Retry(e, x.state, deadline) else x;
      var q := if y.state.verdict == Unclear then Retry(g, y.state, deadline) else y;
      if p.Go? {
        SameSample(e, g, p.state.(attempt := p.state.attempt.(observation := p.state.reading)),
                   q.state.(attempt := q.state.attempt.(observation := q.state.reading)));
      }
    }
  }

  lemma SameCommit(e: Env, g: Env, a: State, b: State, id: string)
    requires SamePlan(e, g) && Same(a, b)
    ensures SameEnd(Commit(e, a, id), Commit(g, b, id))
  {
  }

  lemma SameAccept(e: Env, g: Env, a: State, b: State, number: nat)
    requires SamePlan(e, g) && Same(a, b)
    ensures SameEnd(Accept(e, a, number), Accept(g, b, number))
  {
    hide Commit, Journal, Done;
    if a.trial.Some? && !a.trial.value.id.Absent? {
      var id := a.trial.value.id.text;
      SameCommit(e, g, a, b, id);
      var x, y := Commit(e, a, id), Commit(g, b, id);
      if x.Go? {
        SameJournal(e, g, x.state, y.state);
        var p, q := Journal(e, x.state), Journal(g, y.state);
        if p.Go? {
          SameDone(e, g, Accepted(p.state, number), Accepted(q.state, number));
        }
      }
    }
  }

  function Accepted(st: State, number: nat): State {
    var c := Listed(st.(attempt := st.attempt.(outcome := Succeeded, committed := true)));
    c.(result := c.result.(outcome := Succeeded, used := Some(number)))
  }

  function Unresolved(st: State, number: nat): State {
    var b := Listed(st.(attempt := st.attempt.(outcome := Unsettled, layer := Some(ServiceProbe))));
    b.(result := b.result.(outcome := Unsettled, layer := Some(ServiceProbe), used := Some(number)))
  }

  lemma SameReject(e: Env, g: Env, a: State, b: State, number: nat)
    requires SamePlan(e, g) && Same(a, b)
    ensures SameEnd(Reject(e, a, number), Reject(g, b, number))
  {
    hide Undo, Done;
    SameUndo(e, g, a, b);
    var x, y := Undo(e, a), Undo(g, b);
    if x.Go? {
      SameDone(e, g, Unresolved(x.state, number), Unresolved(y.state, number));
    }
  }

  lemma SameTry(e: Env, g: Env, a: State, b: State, number: nat, deadline: int)
    requires SamePlan(e, g) && Same(a, b)
    ensures SameEnd(Try(e, a, number, deadline), Try(g, b, number, deadline))
  {
    hide Open, Undo, Evaluate, Accept, Reject;
    SameOpen(e, g, a, b, deadline);
    var x, y := Open(e, a, deadline), Open(g, b, deadline);
    if x.Go? {
      SameUndo(e, g, x.state, y.state);
      SameEvaluate(e, g, x.state, y.state, deadline);
      var p, q := Evaluate(e, x.state, deadline), Evaluate(g, y.state, deadline);
      if p.Go? {
        SameAccept(e, g, p.state, q.state, number);
        SameReject(e, g, p.state, q.state, number);
      }
    }
  }

  function Crashed(st: State, number: nat): State {
    var b := Listed(st.(attempt := st.attempt.(layer := Some(RouteRuntime))));
    b.(result := b.result.(layer := Some(RouteRuntime), used := Some(number)))
  }

  lemma SameHandle(e: Env, g: Env, a: State, b: State, number: nat)
    requires SamePlan(e, g) && Same(a, b)
    ensures SameEnd(Handle(e, a, number), Handle(g, b, number))
  {
    hide Undo, Done;
    SameUndo(e, g, a, b);
    var x, y := Salvage(e, a), Salvage(g, b);
    if x.Go? {
      SameDone(e, g, Crashed(x.state, number), Crashed(y.state, number));
    }
  }

  lemma SameAttempt(e: Env, g: Env, a: State, b: State, number: nat, deadline: int)
    requires SamePlan(e, g) && Same(a, b)
    ensures SameEnd(AttemptOnce(e, a, number, deadline), AttemptOnce(g, b, number, deadline))
  {
    hide Try, Handle;
    SameTry(e, g, Begun(e, a, number), Begun(g, b, number), number, deadline);
    var x, y := Try(e, Begun(e, a, number), number, deadline), Try(g, Begun(g, b, number), number, deadline);
    SameHandle(e, g, x.state, y.state, number);
  }

  lemma {:induction false} SameAttempts(e: Env, g: Env, a: State, b: State, number: nat, deadline: int)
    requires SamePlan(e, g) && Same(a, b)
    ensures SameEnd(Attempts(e, a, number, deadline), Attempts(g, b, number, deadline))
    decreases e.request.attempts + 1 - number
  {
    hide AttemptOnce, Done;
    if number > e.request.attempts {
      SameDone(e, g, a.(result := a.result.(used := Some(|a.result.attempts|), layer := LastLayer(a.result.attempts))),
               b.(result := b.result.(used := Some(|b.result.attempts|), layer := LastLayer(b.result.attempts))));
    } else {
      SameAttempt(e, g, a, b, number, deadline);
      var x, y := AttemptOnce(e, a, number, deadline), AttemptOnce(g, b, number, deadline);
      if x.Go? {
        SameAttempts(e, g, x.state, y.state, number + 1, deadline);
      }
    }
  }

  lemma SameBaseline(e: Env, g: Env, a: State, b: State)
    requires SamePlan(e, g) && Same(a, b)
    ensures SameEnd(Baseline(e, a), Baseline(g, b))
  {
    hide Journal, Sample;
    var x, y := EvaluateGate(e, a), EvaluateGate(g, b);
    if x.Go? {
      var p, q := x.state.(result := x.state.result.(baseline := x.state.reading)),
                  y.state.(result := y.state.result.(baseline := y.state.reading));
      SameJournal(e, g, p, q);
      if Journal(e, p).Go? {
        SameSample(e, g, Journal(e, p).state, Journal(g, q).state);
      }
    }
  }

  lemma SameBrushed(e: Env, g: Env, a: State, b: State, deadline: int)
    requires SamePlan(e, g) && Same(a, b)
    ensures SameEnd(Brushed(e, a, deadline), Brushed(g, b, deadline))
  {
    hide Attempts, Done;
    SameAttempts(e, g, a, b, 1, deadline);
    SameDone(e, g, a.(result := a.result.(outcome := AlreadySatisfied)),
        b.(result := b.result.(outcome := AlreadySatisfied)));
    SameDone(e, g, a.(result := a.result.(outcome := Unsettled, layer := Some(ServiceProbe))),
             b.(result := b.result.(outcome := Unsettled, layer := Some(ServiceProbe))));
  }

  /**
   Two runs whose gate observations, control replies, failures and clocks agree make the same control
   calls in the same order, leave the same journal and end with the same result, whatever their
   performance observations are.
   */
  lemma PerformanceNeverDecides(e: Env, g: Env, next: nat, rows: seq<JournalRow>)
    requires SamePlan(e, g)
    ensures var x, y := Run(e, Initial(next, rows)), Run(g, Initial(next, rows));
            && SameEnd(x, y) && x.state.history == y.state.history && x.state.rows == y.state.rows
            && x.state.result == y.state.result
  {
    hide Begin, Baseline, Brushed;
    var st := Initial(next, rows);
    SameBegin(e, g, st);
    var a, b := Begin(e, st, e.script.clock(next)), Begin(g, st, g.script.clock(next));
    if Admissible(e.request) && a.Go? {
      SameBaseline(e, g, a.state, b.state);
      var p, q := Baseline(e, a.state), Baseline(g, b.state);
      if p.Go? {
        SameBrushed(e, g, p.state, q.state, e.script.mono(a.state.next) + e.request.deadlineSeconds);
      }
    }
  }

  lemma SameBegin(e: Env, g: Env, st: State)
    requires SamePlan(e, g)
    ensures SameEnd(Begin(e, st, e.script.clock(st.next)), Begin(g, st, g.script.clock(st.next)))
  {
  }

  // ----- The prepare calls of a run.

  datatype Mark = Mark(at: nat, strategy: Strategy, returned: bool)

  /** The prepare calls of a run. */
  function Marks(h: History): seq<Mark> {
    match h
    case Start => []
    case Then(past, PrepareCall(at, strategy, fate, _)) => Marks(past) + [Mark(at, strategy, fate == Returns)]
    case Then(past, _) => Marks(past)
  }

  /** A piece of the program that neither prepares nor touches the journal row. */
  predicate Quiet(st: State, f: Flow) {
    && f.state.rows == st.rows && f.state.row == st.row && st.next <= f.state.next
    && f.state.result.cooldownUntil == st.result.cooldownUntil && f.state.result.finished == st.result.finished
    && Marks(f.state.history) == Marks(st.history)
  }

  lemma QuietJournal(e: Env, st: State)
    ensures Quiet(st, Journal(e, st)) && !Journal(e, st).Ret?
  {
  }

  lemma QuietRollback(e: Env, st: State, id: string)
    ensures Quiet(st, Rollback(e, st, id)) && !Rollback(e, st, id).Ret?
  {
    QuietRollbackOnce(e, st, id);
    var a := RollbackOnce(e, st, id);
    if a.Exn? {
      QuietRollbackOnce(e, a.state, id);
    }
  }

  lemma QuietRollbackOnce(e: Env, st: State, id: string)
    ensures Quiet(st, RollbackOnce(e, st, id)) && !RollbackOnce(e, st, id).Ret?
  {
  }

  lemma QuietUndo(e: Env, st: State)
    ensures Quiet(st, Undo(e, st)) && !Undo(e, st).Ret?
  {
    hide Journal, Rollback;
    if st.trial.Some? && !st.trial.value.id.Absent? {
      QuietRollback(e, st, st.trial.value.id.text);
      var a := Rollback(e, st, st.trial.value.id.text);
      QuietJournal(e, a.state);
    }
  }

  lemma QuietObserve(e: Env, st: State)
    ensures Quiet(st, Observe(e, st)) && !Observe(e, st).Ret?
  {
  }

  lemma QuietSample(e: Env, st: State)
    ensures Quiet(st, Sample(e, st)) && !Sample(e, st).Ret?
  {
  }

  lemma QuietEvaluate(e: Env, st: State, deadline: int)
    ensures Quiet(st, Evaluate(e, st, deadline)) && !Evaluate(e, st, deadline).Ret?
  {
    hide Observe, Sample;
    QuietObserve(e, st);
    var b := Observe(e, st);
    if b.Go? {
      QuietObserve(e, b.state.(attempt := b.state.attempt.(retried := true)));
      var c := if b.state.verdict == Unclear then Retry(e, b.state, deadline) else b;
      if c.Go? {
        QuietSample(e, c.state.(attempt := c.state.attempt.(observation := c.state.reading)));
      }
    }
  }

  lemma QuietSalvage(e: Env, st: State)
    ensures Quiet(st, Salvage(e, st)) && !Salvage(e, st).Ret?
  {
    hide Undo;
    QuietUndo(e, st);
  }

  lemma QuietCommit(e: Env, st: State, id: string)
    ensures Quiet(st, Commit(e, st, id)) && !Commit(e, st, id).Ret?
  {
  }

  lemma QuietBaseline(e: Env, st: State)
    ensures Quiet(st, Baseline(e, st)) && !Baseline(e, st).Ret?
  {
    hide Journal, Sample;
    var a := EvaluateGate(e, st);
    if a.Go? {
      var b := a.state.(result := a.state.result.(baseline := a.state.reading));
      QuietJournal(e, b);
      if Journal(e, b).Go? {
        QuietSample(e, Journal(e, b).state);
      }
    }
  }

  // ----- The strategies of the attempts.

  lemma OpenMarks(e: Env, st: State, deadline: int)
    ensures var f, m := Open(e, st, deadline), Marks(st.history);
            !f.Ret? && Marks(f.state.history) == if e.script.mono(st.next) >= deadline then m
                                                 else m + [Mark(st.next, st.attempt.strategy,
                                                     e.script.fate(st.next) == Returns)]
  {
    hide Journal, Save;
    var b := Prepare(e, st);
    if e.script.mono(st.next) < deadline && b.Go? {
      QuietJournal(e, b.state);
      var c := Journal(e, b.state);
      if c.Go? {
        SaveMarks(e, c.state);
      }
    }
  }

  lemma SaveMarks(e: Env, st: State)
    ensures Marks(Save(e, st).state.history) == Marks(st.history) && !Save(e, st).Ret?
  {
  }

  lemma DoneMarks(e: Env, st: State)
    ensures Marks(Done(e, st).state.history) == Marks(st.history) && !Done(e, st).Go?
  {
  }

  /** After its prepare an attempt makes no other. */
  lemma RestMarks(e: Env, st: State, number: nat)
    ensures Marks(Unchanged(e, st).state.history) == Marks(st.history)
    ensures Marks(Accept(e, st, number).state.history) == Marks(st.history) && !Accept(e, st, number).Go?
    ensures Marks(Reject(e, st, number).state.history) == Marks(st.history)
  {
    hide Undo, Commit, Journal, Done;
    QuietUndo(e, st);
    if Undo(e, st).Go? {
      DoneMarks(e, Unresolved(Undo(e, st).state, number));
    }
    if st.trial.Some? && !st.trial.value.id.Absent? {
      var id := st.trial.value.id.text;
      QuietCommit(e, st, id);
      var a := Commit(e, st, id);
      if a.Go? {
        QuietJournal(e, a.state);
        if Journal(e, a.state).Go? {
          DoneMarks(e, Accepted(Journal(e, a.state).state, number));
        }
      }
    }
  }

  lemma TryMarks(e: Env, st: State, number: nat, deadline: int)
    ensures var f, m := Try(e, st, number, deadline), Marks(st.history);
            if e.script.mono(st.next) >= deadline then f == Exn(st)
            else Marks(f.state.history) == m + [Mark(st.next, st.attempt.strategy, e.script.fate(st.next) == Returns)]
  {
    hide Evaluate, Unchanged, Accept, Reject, Prepare, Journal, Save;
    OpenMarks(e, st, deadline);
    var a := Open(e, st, deadline);
    if a.Go? {
      QuietEvaluate(e, a.state, deadline);
      RestMarks(e, a.state, number);
      var b := Evaluate(e, a.state, deadline);
      if b.Go? {
        RestMarks(e, b.state, number);
      }
    }
  }

  lemma HandleMarks(e: Env, st: State, number: nat)
    ensures var f := Handle(e, st, number); !f.Go? && Marks(f.state.history) == Marks(st.history)
  {
    hide Salvage, Done;
    QuietSalvage(e, st);
    if Salvage(e, st).Go? {
      DoneMarks(e, Crashed(Salvage(e, st).state, number));
    }
  }

  /** Prepares reconnect or refresh as asked; in automatic mode the first reconnects and all later ones refresh. */
  predicate Escalates(e: Env, marks: seq<Mark>) {
    forall i | 0 <= i < |marks| ::
      marks[i].strategy == match e.request.strategy.GetOr(Auto)
                           case Auto => if i == 0 then Reconnect else RefreshIdentity
                           case Reconnect => Reconnect
                           case RefreshIdentity => RefreshIdentity
  }

  lemma {:induction false} AttemptsEscalate(e: Env, st: State, number: nat, deadline: int)
    requires 1 <= number && Escalates(e, Marks(st.history)) && |Marks(st.history)| == number - 1
    ensures Escalates(e, Marks(Attempts(e, st, number, deadline).state.history))
    decreases e.request.attempts + 1 - number
  {
    hide Try, Handle, Done, Marks;
    if number > e.request.attempts {
      DoneMarks(e, st.(result := st.result.(used := Some(|st.result.attempts|),
          layer := LastLayer(st.result.attempts))));
    } else {
      var begun := Begun(e, st, number);
      TryMarks(e, begun, number, deadline);
      var t := Try(e, begun, number, deadline);
      if t.Exn? {
        HandleMarks(e, t.state, number);
      } else if t.Go? {
        AttemptsEscalate(e, t.state, number + 1, deadline);
      }
    }
  }

  /** In every run, prepare number i uses the strategy of attempt number i. */
  lemma StrategiesEscalate(e: Env, next: nat, rows: seq<JournalRow>)
    ensures Escalates(e, Marks(Run(e, Initial(next, rows)).state.history))
  {
    hide Attempts, Baseline, Done, Marks;
    var st := Initial(next, rows);
    NoMarks(e, st);
    var a := Begin(e, st, e.script.clock(next));
    if a.Go? {
      QuietBaseline(e, a.state);
      var b := Baseline(e, a.state);
      if b.Go? {
        DoneMarks(e, b.state.(result := b.state.result.(outcome := AlreadySatisfied)));
        DoneMarks(e, b.state.(result := b.state.result.(outcome := Unsettled, layer := Some(ServiceProbe))));
        AttemptsEscalate(e, b.state, 1, e.script.mono(a.state.next) + e.request.deadlineSeconds);
      }
    }
  }

  lemma NoMarks(e: Env, st: State)
    requires st.history == Start
    ensures Marks(st.history) == [] && Marks(Begin(e, st, e.script.clock(st.next)).state.history) == []
    ensures !Begin(e, st, e.script.clock(st.next)).Ret?
  {
  }

  // ----- The cooldown.

  /** The time until which the lane must be left alone covers every prepare that returned. */
  predicate Covers(clock: nat -> int, marks: seq<Mark>, until: Option<int>) {
    forall m | m in marks && m.returned :: until.Some? && clock(m.at + 1) + COOLDOWN <= until.value
  }

  /** 1800 seconds after the latest prepare that returned, if any did. */
  function Until(clock: nat -> int, marks: seq<Mark>): Option<int> {
    if marks == [] then None
    else
      var n := |marks| - 1;
      if marks[n].returned then Some(clock(marks[n].at + 1) + COOLDOWN) else Until(clock, marks[..n])
  }

  lemma NextUntil(clock: nat -> int, marks: seq<Mark>, m: Mark)
    ensures Until(clock, marks + [m]) == if m.returned then Some(clock(m.at + 1) + COOLDOWN) else Until(clock, marks)
  {
    assert (marks + [m])[..|marks|] == marks;
  }

  ghost predicate Forward(clock: nat -> int) {
    forall i: nat, j: nat | i <= j :: clock(i) <= clock(j)
  }

  /**
   A journalled run that began at operation `base` on the rows `older`: its own row is the last one,
   it still says running unless the run returned, and then it carries a covering cooldown.
   */
  predicate Guarded(e: Env, st: State, base: nat, older: seq<JournalRow>, running: bool) {
    && e.journaled && e.request.cooldownSeconds == COOLDOWN
    && |st.rows| == |older| + 1 && st.rows[..|older|] == older && st.row == |older|
    && st.rows[st.row].startedAt == e.script.clock(base)
    && st.rows[st.row].running == running && (running || st.rows[st.row].cooldownUntil == st.result.cooldownUntil)
    && base < st.next && (forall m | m in Marks(st.history) :: base < m.at < st.next)
    && Covers(e.script.clock, Marks(st.history), st.result.cooldownUntil)
    && st.result.cooldownUntil == Until(e.script.clock, Marks(st.history))
  }

  lemma QuietKeepsGuard(e: Env, st: State, f: Flow, base: nat, older: seq<JournalRow>)
    requires Guarded(e, st, base, older, true) && Quiet(st, f)
    ensures Guarded(e, f.state, base, older, true)
  {
  }

  lemma PrepareKeepsGuard(e: Env, st: State, base: nat, older: seq<JournalRow>)
    requires Guarded(e, st, base, older, true) && Forward(e.script.clock)
    ensures var f := Prepare(e, st);
            !f.Ret? && f.state.result.finished == st.result.finished && Guarded(e, f.state, base, older, true)
  {
    var f := Prepare(e, st);
    NextUntil(e.script.clock, Marks(st.history), Mark(st.next, st.attempt.strategy, e.script.fate(st.next) == Returns));
    forall m | m in Marks(f.state.history) && m.returned
      ensures f.state.result.cooldownUntil.Some?
      ensures e.script.clock(m.at + 1) + COOLDOWN <= f.state.result.cooldownUntil.value
    {
      assert m in Marks(st.history) || m.at == st.next;
      assert m in Marks(st.history) ==> e.script.clock(m.at + 1) <= e.script.clock(st.next + 1);
    }
  }

  lemma SaveKeepsGuard(e: Env, st: State, base: nat, older: seq<JournalRow>)
    requires Guarded(e, st, base, older, true) && !st.result.finished
    ensures var f := Save(e, st);
            !f.Ret? && f.state.result.finished == st.result.finished && Guarded(e, f.state, base, older, true)
  {
  }

  /** The run's own row is released only by a save that also stores the covering cooldown. */
  lemma DoneReleases(e: Env, st: State, base: nat, older: seq<JournalRow>)
    requires Guarded(e, st, base, older, true)
    ensures var f := Done(e, st); !f.Go? && Guarded(e, f.state, base, older, !f.Ret?)
  {
  }

  /** A piece of the program under the guard. */
  predicate KeepsGuard(e: Env, f: Flow, base: nat, older: seq<JournalRow>) {
    Guarded(e, f.state, base, older, !f.Ret?) && (f.Go? ==> !f.state.result.finished)
  }

  lemma OpenKeepsGuard(e: Env, st: State, deadline: int, base: nat, older: seq<JournalRow>)
    requires Guarded(e, st, base, older, true) && !st.result.finished && Forward(e.script.clock)
    ensures var f := Open(e, st, deadline); KeepsGuard(e, f, base, older) && !f.Ret?
  {
    hide Prepare, Journal, Save, Guarded;
    PrepareKeepsGuard(e, st, base, older);
    var b := Prepare(e, st);
    if b.Go? {
      QuietJournal(e, b.state);
      var c := Journal(e, b.state);
      QuietKeepsGuard(e, b.state, c, base, older);
      if c.Go? {
        SaveKeepsGuard(e, c.state, base, older);
        var d := Save(e, c.state);
        if d.Go? {
          GuardIgnoresAttempt(e, d.state, d.state.(attempt := d.state.attempt.(trial := d.state.trial)), base, older,
              true);
        }
      }
    }
  }

  /** The guard looks only at the journal, the history, the counter and the cooldown. */
  lemma GuardIgnoresAttempt(e: Env, a: State, b: State, base: nat, older: seq<JournalRow>, running: bool)
    requires Guarded(e, a, base, older, running)
    requires b.rows == a.rows && b.row == a.row && b.next == a.next && b.history == a.history
    requires b.result.cooldownUntil == a.result.cooldownUntil
    ensures Guarded(e, b, base, older, running)
  {
  }

  lemma AcceptKeepsGuard(e: Env, st: State, number: nat, base: nat, older: seq<JournalRow>)
    requires Guarded(e, st, base, older, true)
    ensures var f := Accept(e, st, number); !f.Go? && KeepsGuard(e, f, base, older)
  {
    hide Commit, Journal, Done, Guarded;
    if st.trial.Some? && !st.trial.value.id.Absent? {
      var a := Commit(e, st, st.trial.value.id.text);
      QuietCommit(e, st, st.trial.value.id.text);
      QuietKeepsGuard(e, st, a, base, older);
      if a.Go? {
        var b := Journal(e, a.state);
        QuietJournal(e, a.state);
        QuietKeepsGuard(e, a.state, b, base, older);
        if b.Go? {
          GuardIgnoresAttempt(e, b.state, Accepted(b.state, number), base, older, true);
          DoneReleases(e, Accepted(b.state, number), base, older);
        }
      }
    }
  }

  lemma RejectKeepsGuard(e: Env, st: State, number: nat, base: nat, older: seq<JournalRow>)
    requires Guarded(e, st, base, older, true) && !st.result.finished
    ensures KeepsGuard(e, Reject(e, st, number), base, older)
  {
    hide Undo, Done, Guarded;
    var a := Undo(e, st);
    QuietUndo(e, st);
    QuietKeepsGuard(e, st, a, base, older);
    if a.Go? {
      GuardIgnoresAttempt(e, a.state, Unresolved(a.state, number), base, older, true);
      DoneReleases(e, Unresolved(a.state, number), base, older);
      GuardIgnoresAttempt(e, a.state, Listed(a.state.(attempt := a.state.attempt.(layer := Some(ServiceProbe)))),
          base, older, true);
    }
  }

  lemma UnchangedKeepsGuard(e: Env, st: State, base: nat, older: seq<JournalRow>)
    requires Guarded(e, st, base, older, true) && !st.result.finished
    ensures KeepsGuard(e, Unchanged(e, st), base, older)
  {
    hide Undo, Guarded;
    var a := Undo(e, st);
    QuietUndo(e, st);
    QuietKeepsGuard(e, st, a, base, older);
    if a.Go? {
      GuardIgnoresAttempt(e, a.state, Listed(a.state.(attempt := a.state.attempt.(layer := Some(WarpCore)))), base,
          older, true);
    }
  }

  lemma TryKeepsGuard(e: Env, st: State, number: nat, deadline: int, base: nat, older: seq<JournalRow>)
    requires Guarded(e, st, base, older, true) && !st.result.finished && Forward(e.script.clock)
    ensures KeepsGuard(e, Try(e, st, number, deadline), base, older)
  {
    hide Open, Unchanged, Evaluate, Accept, Reject, Guarded;
    OpenKeepsGuard(e, st, deadline, base, older);
    var a := Open(e, st, deadline);
    if a.Go? {
      UnchangedKeepsGuard(e, a.state, base, older);
      var b := Evaluate(e, a.state, deadline);
      QuietEvaluate(e, a.state, deadline);
      QuietKeepsGuard(e, a.state, b, base, older);
      if b.Go? {
        AcceptKeepsGuard(e, b.state, number, base, older);
        RejectKeepsGuard(e, b.state, number, base, older);
      }
    }
  }

  lemma HandleKeepsGuard(e: Env, st: State, number: nat, base: nat, older: seq<JournalRow>)
    requires Guarded(e, st, base, older, true)
    ensures var f := Handle(e, st, number); !f.Go? && KeepsGuard(e, f, base, older)
  {
    hide Salvage, Done, Guarded;
    var a := Salvage(e, st);
    QuietSalvage(e, st);
    QuietKeepsGuard(e, st, a, base, older);
    if a.Go? {
      GuardIgnoresAttempt(e, a.state, Crashed(a.state, number), base, older, true);
      DoneReleases(e, Crashed(a.state, number), base, older);
    }
  }

  lemma {:induction false} AttemptsKeepGuard(e: Env, st: State, number: nat, deadline: int, base: nat,
      older: seq<JournalRow>)
    requires Guarded(e, st, base, older, true) && !st.result.finished && Forward(e.script.clock)
    ensures KeepsGuard(e, Attempts(e, st, number, deadline), base, older)
    decreases e.request.attempts + 1 - number
  {
    hide Try, Handle, Done, Guarded;
    if number > e.request.attempts {
      var last := st.(result := st.result.(used := Some(|st.result.attempts|), layer := LastLayer(st.result.attempts)));
      GuardIgnoresAttempt(e, st, last, base, older, true);
      DoneReleases(e, last, base, older);
    } else {
      GuardIgnoresAttempt(e, st, Begun(e, st, number), base, older, true);
      TryKeepsGuard(e, Begun(e, st, number), number, deadline, base, older);
      var t := Try(e, Begun(e, st, number), number, deadline);
      if t.Exn? {
        HandleKeepsGuard(e, t.state, number, base, older);
      } else if t.Go? {
        AttemptsKeepGuard(e, t.state, number + 1, deadline, base, older);
      }
    }
  }

  lemma BrushedKeepsGuard(e: Env, st: State, deadline: int, base: nat, older: seq<JournalRow>)
    requires Guarded(e, st, base, older, true) && !st.result.finished && Forward(e.script.clock)
    ensures KeepsGuard(e, Brushed(e, st, deadline), base, older)
  {
    hide Attempts, Done, Guarded;
    AttemptsKeepGuard(e, st, 1, deadline, base, older);
    var x, y := st.(result := st.result.(outcome := AlreadySatisfied)),
                st.(result := st.result.(outcome := Unsettled, layer := Some(ServiceProbe)));
    GuardIgnoresAttempt(e, st, x, base, older, true);
    GuardIgnoresAttempt(e, st, y, base, older, true);
    DoneReleases(e, x, base, older);
    DoneReleases(e, y, base, older);
  }

  /** Either the run left no trace at all, or it found the lane available and stayed under the guard. */
  lemma RunIsGuarded(e: Env, next: nat, rows: seq<JournalRow>)
    requires e.journaled && Forward(e.script.clock)
    ensures var f := Run(e, Initial(next, rows));
            || (f.state.rows == rows && next <= f.state.next && Marks(f.state.history) == [] && !f.Ret?)
            || (LaneAvailable(rows, e.script.clock(next)) && Guarded(e, f.state, next, rows, !f.Ret?))
  {
    hide Baseline, Brushed, Guarded;
    var st := Initial(next, rows);
    var a := Begin(e, st, e.script.clock(next));
    if Admissible(e.request) && a.Go? {
      BegunIsGuarded(e, next, rows);
      QuietBaseline(e, a.state);
      var b := Baseline(e, a.state);
      QuietKeepsGuard(e, a.state, b, next, rows);
      if b.Go? {
        BrushedKeepsGuard(e, b.state, e.script.mono(a.state.next) + e.request.deadlineSeconds, next, rows);
      }
    }
  }

  lemma BegunIsGuarded(e: Env, next: nat, rows: seq<JournalRow>)
    requires e.journaled && Admissible(e.request) && Begin(e, Initial(next, rows), e.script.clock(next)).Go?
    ensures var a := Begin(e, Initial(next, rows), e.script.clock(next)).state;
            Guarded(e, a, next, rows, true) && !a.result.finished && LaneAvailable(rows, e.script.clock(next))
  {
  }

  // ----- Sequences of runs on one lane.

  /** What is left between two runs: the next operation number and the journal. */
  datatype Between = Between(next: nat, rows: seq<JournalRow>)

  /** The runs happen one after the other on one timeline; each may return, raise, or die anywhere. */
  function Before(script: Script, requests: seq<Request>, k: nat): Between
    requires k <= |requests|
    decreases k, 0
  {
    if k == 0 then Between(0, [])
    else
      var end := RunNo(script, requests, k - 1).state;
      Between(end.next, end.rows)
  }

  function RunNo(script: Script, requests: seq<Request>, k: nat): Flow
    requires k < |requests|
    decreases k, 1
  {
    var b := Before(script, requests, k);
    Run(Env(script, requests[k], true), Initial(b.next, b.rows))
  }

  /** Rows are in the order of their start times, none later than now. */
  predicate Chronological(rows: seq<JournalRow>, now: int) {
    && (forall i, j | 0 <= i < j < |rows| :: rows[i].startedAt <= rows[j].startedAt)
    && (forall i | 0 <= i < |rows| :: rows[i].startedAt <= now)
  }

  lemma {:induction false} NewestIsLast(rows: seq<JournalRow>, now: int)
    requires rows != [] && Chronological(rows, now)
    ensures NewestRow(rows) == |rows| - 1
  {
    if |rows| > 1 {
      var k := NewestRow(rows[..|rows| - 1]);
      assert rows[k].startedAt <= rows[|rows| - 1].startedAt;
    }
  }

  lemma {:induction false} JournalIsChronological(script: Script, requests: seq<Request>, k: nat)
    requires k <= |requests| && Forward(script.clock)
    ensures var b := Before(script, requests, k); Chronological(b.rows, script.clock(b.next))
  {
    hide Run, RunNo;
    if k > 0 {
      JournalIsChronological(script, requests, k - 1);
      var a, b := Before(script, requests, k - 1), Before(script, requests, k);
      RunNoIsGuarded(script, requests, k - 1);
      assert script.clock(a.next) <= script.clock(b.next);
    }
  }

  /** What run k does to the journal. */
  lemma RunNoIsGuarded(script: Script, requests: seq<Request>, k: nat)
    requires k < |requests| && Forward(script.clock)
    ensures var a, b, f := Before(script, requests, k), Before(script, requests, k + 1), RunNo(script, requests, k);
            && b == Between(f.state.next, f.state.rows) && a.next <= b.next
            && ((b.rows == a.rows && Marks(f.state.history) == [] && !f.Ret?)
                || (&& LaneAvailable(a.rows, script.clock(a.next)) && |b.rows| == |a.rows| + 1
                    && b.rows[..|a.rows|] == a.rows
                    && b.rows[|a.rows|].startedAt == script.clock(a.next)
                    && (forall m | m in Marks(f.state.history) :: a.next <= m.at)
                    && b.rows[|a.rows|].running == !f.Ret?
                    && (f.Ret? ==> && Covers(script.clock, Marks(f.state.history), b.rows[|a.rows|].cooldownUntil)
                                   && b.rows[|a.rows|].cooldownUntil == Until(script.clock, Marks(f.state.history)))))
  {
    hide Run;
    var a := Before(script, requests, k);
    RunIsGuarded(Env(script, requests[k], true), a.next, a.rows);
  }

  /** Nothing may be prepared before `until`: the newest row says running, cools down that long, or it is that late. */
  predicate Locked(rows: seq<JournalRow>, now: int, until: int) {
    && rows != []
    && var last := rows[|rows| - 1];
       last.running || (last.cooldownUntil.Some? && until <= last.cooldownUntil.value) || until <= now
  }

  lemma {:induction false} LaneStaysLocked(script: Script, requests: seq<Request>, i: nat, j: nat, m: Mark)
    requires i < j <= |requests| && Forward(script.clock)
    requires m in Marks(RunNo(script, requests, i).state.history) && m.returned
    ensures var b := Before(script, requests, j); Locked(b.rows, script.clock(b.next),
        script.clock(m.at + 1) + COOLDOWN)
  {
    hide Run, RunNo, Before;
    RunNoIsGuarded(script, requests, j - 1);
    if j > i + 1 {
      LaneStaysLocked(script, requests, i, j - 1, m);
      var a, b := Before(script, requests, j - 1), Before(script, requests, j);
      JournalIsChronological(script, requests, j - 1);
      NewestIsLast(a.rows, script.clock(a.next));
      assert script.clock(a.next) <= script.clock(b.next);
    }
  }

  /**
   The cooldown holds across runs and crashes: whatever happened in between, a later run's prepare
   begins at least 1800 seconds after an earlier run's prepare returned.
   */
  lemma CooldownHolds(script: Script, requests: seq<Request>, i: nat, j: nat, m: Mark, n: Mark)
    requires i < j < |requests| && Forward(script.clock)
    requires m in Marks(RunNo(script, requests, i).state.history) && m.returned
    requires n in Marks(RunNo(script, requests, j).state.history)
    ensures script.clock(n.at) >= script.clock(m.at + 1) + 1800
  {
    hide Run, RunNo, Before;
    LaneStaysLocked(script, requests, i, j, m);
    RunNoIsGuarded(script, requests, j);
    var a := Before(script, requests, j);
    JournalIsChronological(script, requests, j);
    NewestIsLast(a.rows, script.clock(a.next));
    assert script.clock(a.next) <= script.clock(n.at);
  }

  // ----- When a lane is free again.

  lemma {:induction false} UntilIsSomeMark(clock: nat -> int, marks: seq<Mark>)
    ensures Until(clock, marks).None? ==> forall m | m in marks :: !m.returned
    ensures Until(clock, marks).Some? ==>
              exists m | m in marks :: m.returned && Until(clock, marks) == Some(clock(m.at + 1) + COOLDOWN)
  {
    if marks != [] {
      UntilIsSomeMark(clock, marks[..|marks| - 1]);
    }
  }

  /** Every prepare of the run that returned did so at least 1800 seconds before. */
  predicate CooledDown(script: Script, marks: seq<Mark>, now: int) {
    forall m | m in marks && m.returned :: script.clock(m.at + 1) + 1800 <= now
  }

  /** A run gets past `begin`: no exception out of the query, and the insert works. */
  predicate Admitted(script: Script, requests: seq<Request>, j: nat)
    requires j < |requests|
  {
    var b := Before(script, requests, j);
    Begin(Env(script, requests[j], true), Initial(b.next, b.rows), script.clock(b.next)).Go?
  }

  lemma AvailableOnLast(rows: seq<JournalRow>, now: int)
    requires Chronological(rows, now)
    ensures LaneAvailable(rows, now) <==>
              || rows == []
              || (var last := rows[|rows| - 1];
                  !last.running && (last.cooldownUntil.None? || last.cooldownUntil.value <= now))
  {
    if rows != [] {
      NewestIsLast(rows, now);
    }
  }

  /**
   The other half of the cooldown. Run i was the last one to leave a row. A later run gets past `begin` if
   and only if its insert works, run i returned, and 1800 seconds have passed since its latest prepare
   that returned, if there was one. So a run that prepared nothing blocks nobody, and one that raised out
   of the journal or died blocks the lane.
   */
  lemma LaneIsFreeExactly(script: Script, requests: seq<Request>, i: nat, j: nat)
    requires i < j < |requests| && Forward(script.clock)
    requires Before(script, requests, i + 1).rows != Before(script, requests, i).rows
    requires Before(script, requests, j).rows == Before(script, requests, i + 1).rows
    ensures var b, f := Before(script, requests, j), RunNo(script, requests, i);
            Admitted(script, requests, j)
            <==> && script.fate(b.next) == Returns && f.Ret?
                 && CooledDown(script, Marks(f.state.history), script.clock(b.next))
  {
    hide Run, RunNo, Before, LaneAvailable;
    var b, f := Before(script, requests, j), RunNo(script, requests, i);
    RunNoIsGuarded(script, requests, i);
    JournalIsChronological(script, requests, j);
    AvailableOnLast(b.rows, script.clock(b.next));
    BeginsExactly(script, requests, j);
    if f.Ret? {
      UntilIsSomeMark(script.clock, Marks(f.state.history));
    }
  }

  lemma BeginsExactly(script: Script, requests: seq<Request>, j: nat)
    requires j < |requests|
    ensures var b := Before(script, requests, j);
            Admitted(script, requests, j)
            <==> LaneAvailable(b.rows, script.clock(b.next)) && script.fate(b.next) == Returns
  {
  }

  /** On a lane without rows every run whose insert works gets past `begin`. */
  lemma UnusedLaneIsFree(script: Script, requests: seq<Request>, j: nat)
    requires j < |requests| && Before(script, requests, j).rows == []
    ensures Admitted(script, requests, j) <==> script.fate(Before(script, requests, j).next) == Returns
  {
  }

  /** A run that began and did not return leaves its lane locked for good: no later run ever gets past `begin`. */
  lemma {:induction false} BrokenRunLocksLane(script: Script, requests: seq<Request>, i: nat, j: nat)
    requires i < j < |requests| && Forward(script.clock) && !RunNo(script, requests, i).Ret?
    requires Before(script, requests, i + 1).rows != Before(script, requests, i).rows
    ensures Before(script, requests, j).rows == Before(script, requests, i + 1).rows && !Admitted(script, requests, j)
  {
    hide Run, RunNo, Before, LaneAvailable, Admitted;
    if i + 1 < j {
      BrokenRunLocksLane(script, requests, i, j - 1);
      RefusedRunLeavesNothing(script, requests, j - 1);
    }
    LaneIsFreeExactly(script, requests, i, j);
  }

  lemma RefusedRunLeavesNothing(script: Script, requests: seq<Request>, j: nat)
    requires j < |requests| && !Admitted(script, requests, j)
    ensures Before(script, requests, j + 1).rows == Before(script, requests, j).rows
  {
  }
}
