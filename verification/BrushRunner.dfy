/** The brushing run itself (brush.py): objects that change step by step and follow Brush.dfy. */
module BrushRunner {
  import opened Wrappers
  import opened Brush
  import B = Brush
  import T = BrushTheorems
  import R = BrushRuns

  /** How a statement ends; anything but Continue leaves the enclosing block. */
  datatype Signal = Continue | Raised | Died | Returned {

    predicate IsFailure() {
      !Continue?
    }

    function PropagateFailure(): Signal
      requires IsFailure()
    {
      this
    }
  }

  function FlowOf(s: Signal, st: State): Flow {
    match s
    case Continue => Go(st)
    case Raised => Exn(st)
    case Died => Dead(st)
    case Returned => Ret(st)
  }

  /** One turn of the retry loop. */
  lemma NextAttempt(e: Env, st: State, number: nat, deadline: int)
    ensures Attempts(e, st, number, deadline)
            == if number > e.request.attempts then Exhausted(e, st)
               else match AttemptOnce(e, st, number, deadline)
                    case Go(t) => Attempts(e, t, number + 1, deadline)
                    case f => f
  {
  }

  lemma UndoKeeps(e: Env, st: State)
    ensures var f := Undo(e, st); !f.Ret? && f.state.verdict == st.verdict
  {
  }

  /** The rows of one lane in the durable ledger. */
  class RemediationJournal {
    var rows: seq<JournalRow>

    constructor ()
      ensures rows == []
    {
      rows := [];
    }

    /** `assert_available`: the query for the newest row, and the two refusals. */
    method AssertAvailable(now: int) returns (ok: bool)
      ensures ok == LaneAvailable(rows, now)
      ensures (forall i, j | 0 <= i < j < |rows| :: rows[i].startedAt <= rows[j].startedAt) ==>
                (ok <==> || rows == []
                         || (var last := rows[|rows| - 1];
                             !last.running && (last.cooldownUntil.None? || last.cooldownUntil.value <= now)))
    {
      if rows == [] {
        return true;
      }
      var newest := 0;
      for k := 1 to |rows|
        invariant newest == NewestRow(rows[..k])
      {
        assert rows[..k + 1][..k] == rows[..k];
        if rows[newest].startedAt <= rows[k].startedAt {
          newest := k;
        }
      }
      assert rows[..|rows|] == rows;
      if forall i, j | 0 <= i < j < |rows| :: rows[i].startedAt <= rows[j].startedAt {
        R.NewestIsLast(rows, rows[|rows| - 1].startedAt);
      }
      if rows[newest].running {
        return false;
      }
      ok := rows[newest].cooldownUntil.None? || rows[newest].cooldownUntil.value <= now;
    }

    method Insert(startedAt: int) returns (row: nat)
      modifies this
      ensures row == |old(rows)| && rows == old(rows) + [JournalRow(startedAt, true, None)]
    {
      row := |rows|;
      rows := rows + [JournalRow(startedAt, true, None)];
    }

    method Update(row: nat, running: bool, cooldownUntil: Option<int>)
      modifies this
      ensures rows == if row < |old(rows)|
                      then old(rows)[row := old(rows)[row].(running := running,
                          cooldownUntil := cooldownUntil)] else old(rows)
    {
      if row < |rows| {
        rows := rows[row := rows[row].(running := running, cooldownUntil := cooldownUntil)];
      }
    }
  }

  class Runner {
    const env: Env
    const journal: RemediationJournal
    var next: nat
    var history: History
    var row: nat
    var result: Result
    var attempt: Attempt
    var trial: Option<Trial>
    var reading: Option<Reading>
    var verdict: Verdict
    var samples: seq<int>

    constructor (env: Env, journal: RemediationJournal, next: nat)
      ensures this.env == env && this.journal == journal && Now() == Initial(next, journal.rows)
    {
      this.env, this.journal, this.next := env, journal, next;
      history, row, result, attempt := Start, 0, NO_RESULT, NO_ATTEMPT;
      trial, reading, verdict, samples := None, None, Unclear, [];
    }

    function Now(): State
      reads this, journal
    {
      State(next, history, journal.rows, row, result, attempt, trial, reading, verdict, samples)
    }

    /** One external operation. */
    method Operate() returns (s: Signal)
      modifies this`next
      ensures FlowOf(s, Now()) == After(env.script.fate(old(next)), Tick(old(Now())))
    {
      var fate := env.script.fate(next);
      next := next + 1;
      s := match fate case Returns => Continue case Raises => Raised case Dies => Died;
    }

    method ControlCall(entry: Entry) returns (s: Signal)
      modifies this`next, this`history
      ensures FlowOf(s, Now()) == Control(env, old(Now()), entry)
    {
      history := Then(history, entry);
      s := Operate();
    }

    method PrepareTrial() returns (s: Signal)
      modifies this
      ensures FlowOf(s, Now()) == Prepare(env, old(Now()))
    {
      var reply := env.script.trial(next);
      :- ControlCall(PrepareCall(next, attempt.strategy, env.script.fate(next), reply));
      trial := Some(reply);
      result := result.(cooldownUntil := Some(env.script.clock(next) + env.request.cooldownSeconds));
      s := Continue;
    }

    /** `rollback`: a second call when the first one raised. */
    method RollBack(id: string) returns (s: Signal)
      modifies this`next, this`history
      ensures FlowOf(s, Now()) == Rollback(env, old(Now()), id)
    {
      s := ControlCall(RollbackCall(id, env.script.fate(next)));
      if s == Raised {
        s := ControlCall(RollbackCall(id, env.script.fate(next)));
      }
    }

    /** `event`, and the write inside `save`. */
    method Record() returns (s: Signal)
      modifies this`next, this`history
      ensures FlowOf(s, Now()) == Journal(env, old(Now()))
    {
      if !env.journaled {
        return Continue;
      }
      if env.script.fate(next) == Raises {
        history := Then(history, JournalFailed);
      }
      s := Operate();
    }

    method SaveResult() returns (s: Signal)
      modifies this, journal
      ensures FlowOf(s, Now()) == Save(env, old(Now()))
    {
      s := Continue;
      :- Record();
      if env.journaled {
        journal.Update(row, !result.finished, result.cooldownUntil);
      }
      s := Continue;
    }

    method Finish() returns (s: Signal)
      modifies this, journal
      ensures FlowOf(s, Now()) == Done(env, old(Now()))
    {
      result := result.(finished := true);
      :- SaveResult();
      s := Returned;
    }

    method CheckDeadline(deadline: int) returns (s: Signal)
      ensures FlowOf(s, Now()) == EnsureDeadline(env, Now(), deadline)
    {
      s := if env.script.mono(next) >= deadline then Raised else Continue;
    }

    method ReadGate() returns (s: Signal)
      modifies this
      ensures FlowOf(s, Now()) == EvaluateGate(env, old(Now()))
    {
      var o := env.script.gate(next);
      :- Operate();
      reading := Some(o);
      s := Continue;
    }

    method ObserveGate() returns (s: Signal)
      modifies this
      ensures FlowOf(s, Now()) == Observe(env, old(Now()))
    {
      s := Continue;
      :- ReadGate();
      :- Record();
      verdict := if reading.None? then Unclear
                 else ObservationState(reading.value, env.request.scenarioId, env.script.clock(next));
      history := Then(history, GateVerdict(verdict, reading, env.script.clock(next)));
      s := Continue;
    }

    method SamplePerformance() returns (s: Signal)
      modifies this
      ensures FlowOf(s, Now()) == Sample(env, old(Now()))
    {
      var o := env.script.perf(next);
      :- Operate();
      samples := samples + [o];
      s := Record();
    }

    method OpenTrial(deadline: int) returns (s: Signal)
      modifies this, journal
      ensures FlowOf(s, Now()) == Open(env, old(Now()), deadline)
    {
      s := Continue;
      :- CheckDeadline(deadline);
      :- PrepareTrial();
      :- Record();
      :- SaveResult();
      attempt := attempt.(trial := trial);
      s := Continue;
    }

    method UndoTrial() returns (s: Signal)
      modifies this
      ensures FlowOf(s, Now()) == Undo(env, old(Now()))
    {
      if trial.None? || trial.value.id.Absent? {
        return Raised;
      }
      :- RollBack(trial.value.id.text);
      :- Record();
      attempt := attempt.(rollback := Some(RollbackSucceeded));
      s := Continue;
    }

    method EvaluateCandidate(deadline: int) returns (s: Signal)
      modifies this
      ensures FlowOf(s, Now()) == Evaluate(env, old(Now()), deadline)
    {
      s := Continue;
      :- CheckDeadline(deadline);
      :- ObserveGate();
      if verdict == Unclear {
        attempt := attempt.(retried := true);
        :- CheckDeadline(deadline);
        :- ObserveGate();
      }
      attempt := attempt.(observation := reading);
      s := SamplePerformance();
    }

    method ListAttempt()
      modifies this`result
      ensures Now() == Listed(old(Now()))
    {
      result := result.(attempts := result.attempts + [attempt]);
    }

    method AcceptTrial(number: nat) returns (s: Signal)
      modifies this, journal
      ensures FlowOf(s, Now()) == Accept(env, old(Now()), number)
    {
      if trial.None? || trial.value.id.Absent? {
        return Raised;
      }
      :- ControlCall(CommitCall(trial.value.id.text, env.script.fate(next)));
      :- Record();
      attempt := attempt.(outcome := Succeeded, committed := true);
      ListAttempt();
      result := result.(outcome := Succeeded, used := Some(number));
      s := Finish();
    }

    method RejectTrial(number: nat) returns (s: Signal)
      modifies this, journal
      ensures FlowOf(s, Now()) == Reject(env, old(Now()), number)
    {
      hide Undo, Done;
      UndoKeeps(env, Now());
      :- UndoTrial();
      attempt := attempt.(layer := Some(ServiceProbe));
      if verdict == Unclear {
        attempt := attempt.(outcome := Unsettled);
        ListAttempt();
        result := result.(outcome := Unsettled, layer := Some(ServiceProbe), used := Some(number));
        s := Finish();
      } else {
        ListAttempt();
        s := Continue;
      }
    }

    /** The body of the try block. */
    method TryAttempt(number: nat, deadline: int) returns (s: Signal)
      modifies this, journal
      ensures FlowOf(s, Now()) == Try(env, old(Now()), number, deadline)
    {
      s := Continue;
      :- OpenTrial(deadline);
      if trial.None? || !trial.value.changed {
        :- UndoTrial();
        attempt := attempt.(layer := Some(WarpCore));
        ListAttempt();
        return Continue;
      }
      :- EvaluateCandidate(deadline);
      if verdict == Up {
        s := AcceptTrial(number);
      } else {
        s := RejectTrial(number);
      }
    }

    /** `except Exception`: one more rollback, whose failure is only noted, and the end of the run. */
    method HandleException(number: nat) returns (s: Signal)
      modifies this, journal
      ensures FlowOf(s, Now()) == Handle(env, old(Now()), number)
    {
      hide Undo, Done;
      UndoKeeps(env, Now());
      if trial.Some? && trial.value.id.Named? {
        s := UndoTrial();
        if s == Raised {
          attempt := attempt.(rollback := Some(RollbackFailed));
        } else if s == Died {
          return;
        }
      }
      attempt := attempt.(layer := Some(RouteRuntime));
      ListAttempt();
      result := result.(layer := Some(RouteRuntime), used := Some(number));
      s := Finish();
    }

    method RunAttempt(number: nat, deadline: int) returns (s: Signal)
      modifies this, journal
      ensures FlowOf(s, Now()) == AttemptOnce(env, old(Now()), number, deadline)
    {
      trial := None;
      attempt := Attempt(number, AttemptStrategy(env.request.strategy.GetOr(Auto), number), Failed, false, None, None,
                         false, None, None);
      s := TryAttempt(number, deadline);
      if s == Raised {
        s := HandleException(number);
      }
    }

    /** The retry loop and what follows it. */
    method RunAttempts(deadline: int) returns (s: Signal)
      modifies this, journal
      ensures FlowOf(s, Now()) == Attempts(env, old(Now()), 1, deadline)
    {
      hide Attempts, AttemptOnce, Done;
      ghost var first := Now();
      s := Continue;
      var number := 1;
      while number <= env.request.attempts && s == Continue
        invariant 1 <= number
        invariant Attempts(env, first, 1, deadline)
                  == if s == Continue then Attempts(env, Now(), number, deadline) else FlowOf(s, Now())
        decreases env.request.attempts - number, s == Continue
      {
        NextAttempt(env, Now(), number, deadline);
        s := RunAttempt(number, deadline);
        number := number + 1;
      }
      if s == Continue {
        NextAttempt(env, Now(), number, deadline);
        result := result.(used := Some(|result.attempts|), layer := LastLayer(result.attempts));
        s := Finish();
      }
    }

    method BeginRun() returns (s: Signal)
      modifies this, journal
      ensures FlowOf(s, Now()) == Begin(env, old(Now()), env.script.clock(old(next)))
    {
      var startedAt := env.script.clock(next);
      if !env.journaled {
        return Continue;
      }
      var available := journal.AssertAvailable(env.script.clock(next));
      if !available {
        return Raised;
      }
      :- Record();
      row := journal.Insert(startedAt);
      s := Continue;
    }

    /** The baseline evaluation and the performance sample before anything is changed. */
    method ReadBaseline() returns (s: Signal)
      modifies this, journal
      ensures FlowOf(s, Now()) == Baseline(env, old(Now()))
    {
      hide Journal, Sample;
      :- ReadGate();
      result := result.(baseline := reading);
      :- Record();
      s := SamplePerformance();
    }

    /** What the baseline calls for. */
    method Brush(deadline: int) returns (s: Signal)
      modifies this, journal
      ensures FlowOf(s, Now()) == Brushed(env, old(Now()), deadline)
    {
      hide Done, Attempts;
      var state := if reading.None? then Unclear
                   else ObservationState(reading.value, env.request.scenarioId, env.script.clock(next));
      if state == Up && !env.request.forceChange {
        result := result.(outcome := AlreadySatisfied);
        s := Finish();
      } else if state == Unclear {
        result := result.(outcome := Unsettled, layer := Some(ServiceProbe));
        s := Finish();
      } else {
        s := RunAttempts(deadline);
      }
    }

    /** `run`: from a fresh start its control calls follow the protocol, are bounded, and end well. */
    method Run() returns (s: Signal)
      modifies this, journal
      ensures FlowOf(s, Now()) == B.Run(env, old(Now()))
      ensures old(Now()) == Initial(old(next), old(journal.rows)) ==>
                && !T.Scan(history).Illegal? && T.EndsWell(FlowOf(s, Now()))
                && T.Prepares(history) <= (if env.request.attempts < 0 then 0 else env.request.attempts)
                && T.Commits(history) <= 1
                && T.Rollbacks(history) <= (if env.request.attempts < 0 then 0 else 2 * env.request.attempts + 2)
    {
      hide Begin, Baseline, Brushed, T.EndsWell;
      T.RunFollowsProtocol(env, next, journal.rows);
      if !Admissible(env.request) {
        return Raised;
      }
      :- BeginRun();
      var deadline := env.script.mono(next) + env.request.deadlineSeconds;
      :- ReadBaseline();
      s := Brush(deadline);
    }
  }
}
