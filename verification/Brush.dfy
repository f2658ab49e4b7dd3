/**
 The egress brushing protocol (brush.py) as a specification: every external operation of a run reads
 its fate and its result from a script, so a run is a function of the script. The class in
 BrushRunner.dfy is proved to do exactly this.
 */
module Brush {
  import opened Wrappers
  import opened Provenance

  /** An operation returns, raises an Exception, or the process dies in it. */
  datatype Fate = Returns | Raises | Dies

  /** `trial.get("trial_id")`: no key, a falsy value, or a truthy one; the text is what `str` makes of it. */
  datatype TrialId = Absent | Falsy(text: string) | Named(text: string)

  datatype Trial = Trial(id: TrialId, changed: bool)

  /** What `observation_state` looks at; no `freshUntil` stands for a missing or unreadable one. */
  datatype Reading = Reading(version: int, scenarioId: string, freshUntil: Option<int>, eligible: bool,
      availability: Availability)

  datatype Strategy = Auto | Reconnect | RefreshIdentity

  /** Operation number n has fate(n) and result trial(n), gate(n) or perf(n); the clocks are read before operation n. */
  datatype Script = Script(
    fate: nat -> Fate, trial: nat -> Trial, gate: nat -> Reading, perf: nat -> int, clock: nat -> int, mono: nat -> int)

  datatype Request = Request(
    brushable: bool, scenarioId: string, attempts: int, strategy: Option<Strategy>, leaseSeconds: int,
    forceChange: bool, deadlineSeconds: int, cooldownSeconds: int)

  datatype Env = Env(script: Script, request: Request, journaled: bool)

  datatype Verdict = Up | Down | Unclear

  datatype Outcome = Failed | AlreadySatisfied | Unsettled | Succeeded

  datatype Layer = ServiceProbe | WarpCore | RouteRuntime

  datatype Note = RollbackSucceeded | RollbackFailed

  datatype Attempt = Attempt(
    number: nat, strategy: Strategy, outcome: Outcome, retried: bool, trial: Option<Trial>, rollback: Option<Note>,
    committed: bool, layer: Option<Layer>, observation: Option<Reading>)

  datatype Result = Result(
    outcome: Outcome, attempts: seq<Attempt>, layer: Option<Layer>, used: Option<nat>, cooldownUntil: Option<int>,
    finished: bool, baseline: Option<Reading>)

  /** One row of `remediation_runs` of the lane. */
  datatype JournalRow = JournalRow(startedAt: int, running: bool, cooldownUntil: Option<int>)

  /** The control calls, gate verdicts and journal failures of a run, newest last. */
  datatype Entry =
    | PrepareCall(at: nat, strategy: Strategy, fate: Fate, trial: Trial)
    | CommitCall(id: string, fate: Fate)
    | RollbackCall(id: string, fate: Fate)
    | GateVerdict(verdict: Verdict, reading: Option<Reading>, now: int)
    | JournalFailed

  datatype History = Start | Then(past: History, entry: Entry)

  /**
   `next` is the number of the next operation, `row` the journal row of this run, and `samples` holds
   the performance observations of the result and its attempts in the order in which they were taken.
   */
  datatype State = State(
    next: nat, history: History, rows: seq<JournalRow>, row: nat, result: Result, attempt: Attempt,
    trial: Option<Trial>, reading: Option<Reading>, verdict: Verdict, samples: seq<int>)

  /** How a piece of the program ends: falling through, raising, dying, or returning from the run. */
  datatype Flow = Go(state: State) | Exn(state: State) | Dead(state: State) | Ret(state: State) {

    predicate IsFailure() {
      !Go?
    }

    function PropagateFailure(): Flow
      requires IsFailure()
    {
      this
    }

    function Extract(): State
      requires Go?
    {
      state
    }
  }

  const COOLDOWN: int := 1800

  function After(fate: Fate, st: State): Flow {
    match fate
    case Returns => Go(st)
    case Raises => Exn(st)
    case Dies => Dead(st)
  }

  // ----- Pure decisions.

  function ObservationState(o: Reading, expected: string, now: int): Verdict {
    if o.version != 1 && o.version != 2 then Unclear
    else if o.scenarioId != expected then Unclear
    else if o.freshUntil.None? || o.freshUntil.value <= now then Unclear
    else if !o.eligible then Unclear
    else match o.availability case Available => Up case Unavailable => Down case Inconclusive => Unclear
  }

  function AttemptStrategy(strategy: Strategy, number: nat): Strategy {
    if strategy != Auto then strategy else if number == 1 then Reconnect else RefreshIdentity
  }

  /** Everything `run` checks before it does anything. */
  predicate Admissible(q: Request) {
    && q.brushable && 1 <= q.attempts <= 3 && q.strategy.Some? && 30 <= q.leaseSeconds <= 1800
    && 60 <= q.deadlineSeconds <= 900 && q.cooldownSeconds == COOLDOWN
  }

  // ----- External operations.

  function Noted(st: State, entry: Entry): State {
    st.(history := Then(st.history, entry))
  }

  function Tick(st: State): State {
    st.(next := st.next + 1)
  }

  /** A control call leaves its mark in the history whatever its fate. */
  function Control(e: Env, st: State, entry: Entry): Flow {
    After(e.script.fate(st.next), Tick(Noted(st, entry)))
  }

  function Prepare(e: Env, st: State): Flow {
    var fate, trial := e.script.fate(st.next), e.script.trial(st.next);
    var t :- Control(e, st, PrepareCall(st.next, st.attempt.strategy, fate, trial));
    Go(t.(trial := Some(trial),
        result := t.result.(cooldownUntil := Some(e.script.clock(t.next) + e.request.cooldownSeconds))))
  }

  function RollbackOnce(e: Env, st: State, id: string): Flow {
    Control(e, st, RollbackCall(id, e.script.fate(st.next)))
  }

  /** `rollback`: one retry. */
  function Rollback(e: Env, st: State, id: string): Flow {
    match RollbackOnce(e, st, id)
    case Exn(t) => RollbackOnce(e, t, id)
    case f => f
  }

  function Commit(e: Env, st: State, id: string): Flow {
    Control(e, st, CommitCall(id, e.script.fate(st.next)))
  }

  /** An event or a save: nothing without a journal. */
  function Journal(e: Env, st: State): Flow {
    if !e.journaled then Go(st)
    else
      var fate := e.script.fate(st.next);
      After(fate, Tick(if fate == Raises then Noted(st, JournalFailed) else st))
  }

  function Saved(st: State): State {
    if st.row < |st.rows|
    then st.(rows := st.rows[st.row := st.rows[st.row].(running := !st.result.finished,
        cooldownUntil := st.result.cooldownUntil)])
    else st
  }

  function Save(e: Env, st: State): Flow {
    var t :- Journal(e, st);
    Go(if e.journaled then Saved(t) else t)
  }

  /** `done`: finish, save, return. */
  function Done(e: Env, st: State): Flow {
    var t :- Save(e, st.(result := st.result.(finished := true)));
    Ret(t)
  }

  function EvaluateGate(e: Env, st: State): Flow {
    var t :- After(e.script.fate(st.next), Tick(st));
    Go(t.(reading := Some(e.script.gate(st.next))))
  }

  /** A gate evaluation, its event, and the verdict on it. */
  function Observe(e: Env, st: State): Flow {
    var a :- EvaluateGate(e, st);
    var b :- Journal(e, a);
    Go(Judged(e, b))
  }

  function Judged(e: Env, st: State): State {
    var verdict := if st.reading.None? then Unclear
                   else ObservationState(st.reading.value, e.request.scenarioId, e.script.clock(st.next));
    Noted(st.(verdict := verdict), GateVerdict(verdict, st.reading, e.script.clock(st.next)))
  }

  function EnsureDeadline(e: Env, st: State, deadline: int): Flow {
    if e.script.mono(st.next) >= deadline then Exn(st) else Go(st)
  }

  // ----- One attempt: the body of the try block, in four stages.

  function Begun(e: Env, st: State, number: nat): State {
    st.(trial := None,
        attempt := Attempt(number, AttemptStrategy(e.request.strategy.GetOr(Auto), number), Failed, false, None, None,
                           false, None, None))
  }

  /** Up to the point where the trial is on record. */
  function Open(e: Env, st: State, deadline: int): Flow {
    var a :- EnsureDeadline(e, st, deadline);
    var b :- Prepare(e, a);
    var c :- Journal(e, b);
    var d :- Save(e, c);
    Go(d.(attempt := d.attempt.(trial := d.trial)))
  }

  function Listed(st: State): State {
    st.(result := st.result.(attempts := st.result.attempts + [st.attempt]))
  }

  /** Rolls the trial back; a trial without an id raises a KeyError instead. */
  function Undo(e: Env, st: State): Flow {
    if st.trial.None? || st.trial.value.id.Absent? then Exn(st)
    else
      var a :- Rollback(e, st, st.trial.value.id.text);
      var b :- Journal(e, a);
      Go(b.(attempt := b.attempt.(rollback := Some(RollbackSucceeded))))
  }

  function Unchanged(e: Env, st: State): Flow {
    var a :- Undo(e, st);
    Go(Listed(a.(attempt := a.attempt.(layer := Some(WarpCore)))))
  }

  /** The gate evaluation with at most one retry, then the performance sample. */
  function Evaluate(e: Env, st: State, deadline: int): Flow {
    var a :- EnsureDeadline(e, st, deadline);
    var b :- Observe(e, a);
    var c :- if b.verdict == Unclear then Retry(e, b, deadline) else Go(b);
    Sample(e, c.(attempt := c.attempt.(observation := c.reading)))
  }

  function Retry(e: Env, st: State, deadline: int): Flow {
    var a :- EnsureDeadline(e, st.(attempt := st.attempt.(retried := true)), deadline);
    Observe(e, a)
  }

  function Sample(e: Env, st: State): Flow {
    var a :- After(e.script.fate(st.next), Tick(st));
    Journal(e, a.(samples := a.samples + [e.script.perf(st.next)]))
  }

  function Accept(e: Env, st: State, number: nat): Flow {
    if st.trial.None? || st.trial.value.id.Absent? then Exn(st)
    else
      var a :- Commit(e, st, st.trial.value.id.text);
      var b :- Journal(e, a);
      var c := Listed(b.(attempt := b.attempt.(outcome := Succeeded, committed := true)));
      Done(e, c.(result := c.result.(outcome := Succeeded, used := Some(number))))
  }

  function Reject(e: Env, st: State, number: nat): Flow {
    var a :- Undo(e, st);
    if st.verdict == Unclear then
      var b := Listed(a.(attempt := a.attempt.(outcome := Unsettled, layer := Some(ServiceProbe))));
      Done(e, b.(result := b.result.(outcome := Unsettled, layer := Some(ServiceProbe), used := Some(number))))
    else Go(Listed(a.(attempt := a.attempt.(layer := Some(ServiceProbe)))))
  }

  function Try(e: Env, st: State, number: nat, deadline: int): Flow {
    var a :- Open(e, st, deadline);
    if a.trial.None? || !a.trial.value.changed then Unchanged(e, a)
    else
      var b :- Evaluate(e, a, deadline);
      if b.verdict == Up then Accept(e, b, number) else Reject(e, b, number)
  }

  /** The handler's own rollback: a failure of it is only noted. */
  function Salvage(e: Env, st: State): Flow {
    if st.trial.Some? && st.trial.value.id.Named? then
      match Undo(e, st)
      case Exn(t) => Go(t.(attempt := t.attempt.(rollback := Some(RollbackFailed))))
      case f => f
    else Go(st)
  }

  /** `except Exception`. */
  function Handle(e: Env, st: State, number: nat): Flow {
    var a :- Salvage(e, st);
    var b := Listed(a.(attempt := a.attempt.(layer := Some(RouteRuntime))));
    Done(e, b.(result := b.result.(layer := Some(RouteRuntime), used := Some(number))))
  }

  function AttemptOnce(e: Env, st: State, number: nat, deadline: int): Flow {
    match Try(e, Begun(e, st, number), number, deadline)
    case Exn(t) => Handle(e, t, number)
    case f => f
  }

  function LastLayer(attempts: seq<Attempt>): Option<Layer> {
    if attempts == [] then None else attempts[|attempts| - 1].layer
  }

  function Exhausted(e: Env, st: State): Flow {
    Done(e, st.(result := st.result.(used := Some(|st.result.attempts|), layer := LastLayer(st.result.attempts))))
  }

  function Attempts(e: Env, st: State, number: nat, deadline: int): Flow
    decreases e.request.attempts + 1 - number
  {
    if number > e.request.attempts then Exhausted(e, st)
    else
      var t :- AttemptOnce(e, st, number, deadline);
      Attempts(e, t, number + 1, deadline)
  }

  // ----- The run.

  /** The index of the newest row: `ORDER BY started_at DESC LIMIT 1`. */
  function NewestRow(rows: seq<JournalRow>): (k: nat)
    requires rows != []
    ensures k < |rows|
  {
    if |rows| == 1 then 0
    else
      var n := |rows| - 1;
      var k := NewestRow(rows[..n]);
      if rows[k].startedAt <= rows[n].startedAt then n else k
  }

  /** `assert_available` */
  predicate LaneAvailable(rows: seq<JournalRow>, now: int) {
    rows == [] ||
    var r := rows[NewestRow(rows)];
    !r.running && (r.cooldownUntil.None? || r.cooldownUntil.value <= now)
  }

  /** `begin`, as one step; without a journal nothing happens. */
  function Begin(e: Env, st: State, startedAt: int): Flow {
    if !e.journaled then Go(st)
    else if !LaneAvailable(st.rows, e.script.clock(st.next)) then Exn(st)
    else
      var t :- Journal(e, st);
      Go(t.(rows := t.rows + [JournalRow(startedAt, true, None)], row := |t.rows|))
  }

  const NO_RESULT := Result(Failed, [], None, None, None, false, None)
  const NO_ATTEMPT := Attempt(0, Auto, Failed, false, None, None, false, None, None)

  /** A run starts with its own result and history, on whatever journal there is. */
  function Initial(next: nat, rows: seq<JournalRow>): State {
    State(next, Start, rows, 0, NO_RESULT, NO_ATTEMPT, None, None, Unclear, [])
  }

  /** The baseline evaluation and the first performance sample. */
  function Baseline(e: Env, st: State): Flow {
    var a :- EvaluateGate(e, st);
    var b :- Journal(e, a.(result := a.result.(baseline := a.reading)));
    Sample(e, b)
  }

  function Brushed(e: Env, st: State, deadline: int): Flow {
    var verdict := if st.reading.None? then Unclear
                   else ObservationState(st.reading.value, e.request.scenarioId, e.script.clock(st.next));
    if verdict == Up && !e.request.forceChange then Done(e, st.(result := st.result.(outcome := AlreadySatisfied)))
    else if verdict == Unclear then
      Done(e, st.(result := st.result.(outcome := Unsettled, layer := Some(ServiceProbe))))
    else Attempts(e, st, 1, deadline)
  }

  function Run(e: Env, st: State): Flow {
    if !Admissible(e.request) then Exn(st)
    else
      var a :- Begin(e, st, e.script.clock(st.next));
      var deadline := e.script.mono(a.next) + e.request.deadlineSeconds;
      var b :- Baseline(e, a);
      Brushed(e, b, deadline)
  }
}
